/**
  Server-side verification (internal/service/verify/service.go): a signed token succeeds at
  most once although a sweeper forgets used tokens. Calls run concurrently: marking a token
  as used and checking its age are separate steps, and sweeps fall anywhere between.
 */
module Verify {
  import opened Prelude
  import opened Tokens

  const LIFETIME: int := 10 * MINUTE
  const RETENTION: int := 15 * MINUTE
  /** How far ahead of its first presentation a stamp may lie without harm. */
  const MARGIN: int := 5 * MINUTE

  datatype Outcome =
    | InvalidSecret | InvalidFormat | InvalidSignature | AlreadyUsed
    | InvalidPayload | InvalidTimestamp | Expired
    | Success(challengeID: string, challengeTS: string)

  /** The checks before the replay set; None lets the token through to it. */
  function Screen(codec: Codec, secretOk: bool, token: string): Option<Outcome> {
    if !secretOk then Some(InvalidSecret)
    else match SplitOnce(token, '.')
      case None => Some(InvalidFormat)
      case Some((payload, signature)) =>
        if signature == codec.mac(payload) then None else Some(InvalidSignature)
  }

  /** The checks after it. */
  function Judge(codec: Codec, token: string, now: int): Outcome {
    match SplitOnce(token, '.')
    case None => InvalidFormat
    case Some((payload, _)) => match SplitOnce(payload, '|')
      case None => InvalidPayload
      case Some((id, ts)) => match codec.parse(ts)
        case None => InvalidTimestamp
        case Some(stamp) => if now - stamp > LIFETIME then Expired else Success(id, ts)
  }

  function Swept(used: map<string, int>, now: int): map<string, int> {
    map token | token in used && used[token] >= now - RETENTION :: used[token]
  }

  /** The token is some payload without a dot, a dot, and the payload's MAC. */
  ghost predicate Genuine(codec: Codec, token: string) {
    exists payload: string :: '.' !in payload && token == payload + ['.'] + codec.mac(payload)
  }

  /**
    Past the first checks comes exactly a genuine token presented with a valid secret; what is
    wrong with any other is told in the order secret, form, signature.
   */
  lemma ScreenMeans(codec: Codec, secretOk: bool, token: string)
    ensures Screen(codec, secretOk, token) ==
            if !secretOk then Some(InvalidSecret)
            else if '.' !in token then Some(InvalidFormat)
            else if !Genuine(codec, token) then Some(InvalidSignature)
            else None
  {
    SplitCharacterized(token, '.');
    if '.' in token && secretOk {
      var (payload, signature) := SplitOnce(token, '.').value;
      if Genuine(codec, token) {
        var p: string :| '.' !in p && token == p + ['.'] + codec.mac(p);
        SplitsBack(p, '.', codec.mac(p));
      }
    }
  }

  /** The later checks on a token that is taken apart as written: at most ten minutes may have passed. */
  lemma JudgeMeans(codec: Codec, id: string, ts: string, signature: string, now: int)
    requires '.' !in id && '.' !in ts && '|' !in id
    ensures Judge(codec, (id + ['|'] + ts) + ['.'] + signature, now) ==
            match codec.parse(ts)
            case None => InvalidTimestamp
            case Some(stamp) => if now - stamp > 600_000_000_000 then Expired else Success(id, ts)
    ensures '|' !in ts ==> Judge(codec, ts + ['.'] + signature, now) == InvalidPayload
  {
    SplitsBack(id + ['|'] + ts, '.', signature);
    SplitsBack(id, '|', ts);
    SplitsBack(ts, '.', signature);
    SplitCharacterized(ts, '|');
  }

  /** A sweep forgets exactly what was marked more than fifteen minutes ago. */
  lemma SweptMeans(used: map<string, int>, now: int, token: string)
    ensures token in Swept(used, now) <==> token in used && now - used[token] <= 900_000_000_000
    ensures token in Swept(used, now) ==> Swept(used, now)[token] == used[token]
  {}

  /** A token is judged a success exactly while its claimed stamp is at most ten minutes old. */
  lemma SuccessMeans(codec: Codec, token: string, now: int)
    ensures Judge(codec, token, now).Success?
       <==> ClaimOf(codec, token).Some? && now - ClaimOf(codec, token).value.1 <= LIFETIME
    ensures Judge(codec, token, now).Success? ==> Judge(codec, token, now).challengeID == ClaimOf(codec, token).value.0
  {}

  class Service {
    const codec: Codec
    var usedTokens: map<string, int>

    constructor (codec: Codec)
      ensures this.codec == codec && usedTokens == map[]
    {
      this.codec := codec;
      usedTokens := map[];
    }

    /** One call on its own; the clock is read when marking and again when checking the age. */
    method SiteVerify(secretOk: bool, token: string, markTime: int, checkTime: int) returns (r: Outcome)
      modifies this
      ensures Screen(codec, secretOk, token).Some? ==>
                usedTokens == old(usedTokens) && r == Screen(codec, secretOk, token).value
      ensures Screen(codec, secretOk, token).None? && token in old(usedTokens) ==>
                usedTokens == old(usedTokens) && r == AlreadyUsed
      ensures Screen(codec, secretOk, token).None? && token !in old(usedTokens) ==>
                usedTokens == old(usedTokens)[token := markTime] && r == Judge(codec, token, checkTime)
      ensures r.Success? || usedTokens != old(usedTokens) ==>
                secretOk && Genuine(codec, token) && token !in old(usedTokens)
    {
      ScreenMeans(codec, secretOk, token);
      if !secretOk {
        return InvalidSecret;
      }
      var parts := SplitOnce(token, '.');
      if parts.None? {
        return InvalidFormat;
      }
      var (payload, signature) := parts.value;
      if signature != codec.mac(payload) {
        return InvalidSignature;
      }
      if token in usedTokens {
        return AlreadyUsed;
      }
      usedTokens := usedTokens[token := markTime];
      var payloadParts := SplitOnce(payload, '|');
      if payloadParts.None? {
        return InvalidPayload;
      }
      var (challengeID, tokenTS) := payloadParts.value;
      var ts := codec.parse(tokenTS);
      if ts.None? {
        return InvalidTimestamp;
      }
      if checkTime - ts.value > 10 * MINUTE {
        return Expired;
      }
      return Success(challengeID, tokenTS);
    }

    /** One tick of cleanupLoop: visit every entry, in whatever order, and delete the old. */
    method Cleanup(now: int)
      modifies this
      ensures usedTokens == Swept(old(usedTokens), now)
      ensures forall t :: t in usedTokens <==> t in old(usedTokens) && now - old(usedTokens)[t] <= 900_000_000_000
    {
      var cutoff := now - 15 * MINUTE;
      ghost var was := usedTokens;
      var todo := usedTokens.Keys;
      while todo != {}
        invariant todo <= usedTokens.Keys <= was.Keys
        invariant forall t :: t in was ==> (t in usedTokens <==> t in todo || was[t] >= cutoff)
        invariant forall t :: t in usedTokens ==> usedTokens[t] == was[t]
        decreases |todo|
      {
        var token :| token in todo;
        if usedTokens[token] < cutoff {
          usedTokens := usedTokens - {token};
        }
        todo := todo - {token};
      }
    }
  }

  // ---- Concurrent runs ------------------------------------------------------------

  /** A call gets its number when it is made; wins are the calls that have succeeded. */
  datatype State = State(used: map<string, int>, pending: map<nat, string>, wins: map<nat, string>,
                         calls: nat, clock: int)

  datatype Event =
    | Mark(secretOk: bool, token: string, now: int)
    | Check(call: nat, now: int)
    | Sweep(now: int)

  function Step(codec: Codec, s: State, e: Event): State {
    match e
    case Mark(secretOk, token, now) =>
      var s' := s.(calls := s.calls + 1, clock := now);
      if Screen(codec, secretOk, token).None? && token !in s.used
      then s'.(used := s.used[token := now], pending := s.pending[s.calls := token])
      else s'
    case Check(call, now) =>
      if call !in s.pending then s.(clock := now)
      else
        var token := s.pending[call];
        s.(pending := s.pending - {call}, clock := now,
           wins := if Judge(codec, token, now).Success? then s.wins[call := token] else s.wins)
    case Sweep(now) => s.(used := Swept(s.used, now), clock := now)
  }

  const INITIAL := State(map[], map[], map[], 0, 0)

  function Run(codec: Codec, events: seq<Event>): State {
    if events == [] then INITIAL
    else Step(codec, Run(codec, events[..|events| - 1]), events[|events| - 1])
  }

  ghost predicate ClockOrder(events: seq<Event>) {
    && (forall i, j :: 0 <= i < j < |events| ==> events[i].now <= events[j].now)
    && (events != [] ==> 0 <= events[0].now)
  }

  /** Call numbers are handed out once. */
  ghost predicate CallsOk(s: State) {
    && (forall c :: c in s.pending ==> c < s.calls && c !in s.wins)
    && (forall c :: c in s.wins ==> c < s.calls)
  }

  // ---- No token succeeds twice -----------------------------------------------------

  ghost predicate Holds(s: State, token: string, call: nat) {
    call in s.pending && s.pending[call] == token
  }

  ghost predicate Won(s: State, token: string, call: nat) {
    call in s.wins && s.wins[call] == token
  }

  /**
    While the token could still pass the age check, its entry in the replay set stands
    for the one call that may succeed with it.
   */
  ghost predicate OneShot(s: State, token: string, stamp: int) {
    && (forall c, d :: Won(s, token, c) && Won(s, token, d) ==> c == d)
    && (s.clock <= stamp + LIFETIME ==>
         && (forall c, d :: (Holds(s, token, c) || Won(s, token, c)) && (Holds(s, token, d) || Won(s, token, d)) ==>
               c == d)
         && (token !in s.used ==> forall c :: !Holds(s, token, c) && !Won(s, token, c))
         && (token in s.used ==> stamp <= s.used[token] + MARGIN))
  }

  /** The event presents the token, and the token passes the first checks. */
  ghost predicate Presents(codec: Codec, e: Event, token: string) {
    e.Mark? && e.token == token && Screen(codec, e.secretOk, e.token).None?
  }

  /** Never presented while its stamp is still more than the margin ahead. */
  ghost predicate InTime(codec: Codec, e: Event, token: string, stamp: int) {
    Presents(codec, e, token) ==> stamp <= e.now + MARGIN
  }

  lemma MarkOneShot(codec: Codec, s: State, e: Event, token: string, stamp: int)
    requires e.Mark? && CallsOk(s) && s.clock <= e.now && OneShot(s, token, stamp) && InTime(codec, e, token, stamp)
    ensures OneShot(Step(codec, s, e), token, stamp)
  {
    var s' := Step(codec, s, e);
    assert forall c :: Won(s', token, c) <==> Won(s, token, c);
    if Screen(codec, e.secretOk, e.token).None? && e.token !in s.used {
      assert forall c :: Holds(s', token, c) <==> (c == s.calls && e.token == token) || Holds(s, token, c);
      assert !Holds(s, token, s.calls);
    } else {
      assert forall c :: Holds(s', token, c) <==> Holds(s, token, c);
    }
  }

  lemma CheckOneShot(codec: Codec, s: State, e: Event, token: string)
    requires e.Check? && CallsOk(s) && s.clock <= e.now
    requires ClaimOf(codec, token).Some? && OneShot(s, token, ClaimOf(codec, token).value.1)
    ensures OneShot(Step(codec, s, e), token, ClaimOf(codec, token).value.1)
  {
    var s' := Step(codec, s, e);
    assert forall c :: Holds(s', token, c) <==> Holds(s, token, c) && c != e.call;
    if e.call in s.pending {
      SuccessMeans(codec, s.pending[e.call], e.now);
      assert forall c :: Won(s', token, c) ==>
        Won(s, token, c) || (c == e.call && Holds(s, token, c) && e.now <= ClaimOf(codec, token).value.1 + LIFETIME);
    } else {
      assert forall c :: Won(s', token, c) ==> Won(s, token, c);
    }
  }

  lemma SweepOneShot(codec: Codec, s: State, e: Event, token: string, stamp: int)
    requires e.Sweep? && s.clock <= e.now && OneShot(s, token, stamp)
    ensures OneShot(Step(codec, s, e), token, stamp)
  {
    var s' := Step(codec, s, e);
    assert forall c :: Won(s', token, c) <==> Won(s, token, c);
    assert forall c :: Holds(s', token, c) <==> Holds(s, token, c);
  }

  lemma StepOneShot(codec: Codec, s: State, e: Event, token: string)
    requires CallsOk(s) && s.clock <= e.now
    requires ClaimOf(codec, token).Some?
    requires var stamp := ClaimOf(codec, token).value.1;
             OneShot(s, token, stamp) && InTime(codec, e, token, stamp)
    ensures OneShot(Step(codec, s, e), token, ClaimOf(codec, token).value.1)
  {
    match e
    case Mark(_, _, _) => MarkOneShot(codec, s, e, token, ClaimOf(codec, token).value.1);
    case Check(_, _) => CheckOneShot(codec, s, e, token);
    case Sweep(_) => SweepOneShot(codec, s, e, token, ClaimOf(codec, token).value.1);
  }

  lemma StepCallsOk(codec: Codec, s: State, e: Event)
    requires CallsOk(s)
    ensures CallsOk(Step(codec, s, e)) && Step(codec, s, e).clock == e.now
  {}

  lemma {:induction false} RunClock(codec: Codec, events: seq<Event>)
    ensures CallsOk(Run(codec, events))
    ensures Run(codec, events).clock == if events == [] then 0 else events[|events| - 1].now
  {
    if events != [] {
      RunClock(codec, events[..|events| - 1]);
      StepCallsOk(codec, Run(codec, events[..|events| - 1]), events[|events| - 1]);
    }
  }

  lemma {:induction false} RunOneShot(codec: Codec, events: seq<Event>, token: string)
    requires ClockOrder(events) && ClaimOf(codec, token).Some?
    requires forall e :: e in events ==> InTime(codec, e, token, ClaimOf(codec, token).value.1)
    ensures OneShot(Run(codec, events), token, ClaimOf(codec, token).value.1)
  {
    if events != [] {
      var n := |events| - 1;
      RunOneShot(codec, events[..n], token);
      RunClock(codec, events[..n]);
      StepOneShot(codec, Run(codec, events[..n]), events[n], token);
    }
  }

  lemma {:induction false} WinnersClaim(codec: Codec, events: seq<Event>, call: nat)
    requires call in Run(codec, events).wins
    ensures ClaimOf(codec, Run(codec, events).wins[call]).Some?
  {
    var n := |events| - 1;
    var s := Run(codec, events[..n]);
    if call in s.wins {
      WinnersClaim(codec, events[..n], call);
      RunClock(codec, events[..n]);
    } else {
      SuccessMeans(codec, s.pending[call], events[n].now);
    }
  }

  ghost predicate SucceedsTwice(codec: Codec, events: seq<Event>, token: string) {
    exists c, d :: c != d && Won(Run(codec, events), token, c) && Won(Run(codec, events), token, d)
  }

  /** In every interleaving of calls and sweeps, a token presented in time succeeds at most once. */
  lemma NoDoubleSuccess(codec: Codec, events: seq<Event>, token: string)
    requires ClockOrder(events)
    requires ClaimOf(codec, token).Some? ==>
               forall e :: e in events ==> InTime(codec, e, token, ClaimOf(codec, token).value.1)
    ensures !SucceedsTwice(codec, events, token)
  {
    if SucceedsTwice(codec, events, token) {
      var c, d :| c != d && Won(Run(codec, events), token, c) && Won(Run(codec, events), token, d);
      WinnersClaim(codec, events, c);
      RunOneShot(codec, events, token);
    }
  }

  // ---- The margin is exact ----------------------------------------------------------

  ghost predicate FirstPresentedAt(codec: Codec, events: seq<Event>, token: string, m: int) {
    exists i :: 0 <= i < |events| && Presents(codec, events[i], token) && events[i].now == m
                && forall j :: 0 <= j < i ==> !Presents(codec, events[j], token)
  }

  /** Two calls around a sweep that comes just after the retention is over. */
  function ReplayRun(token: string, m: int): seq<Event> {
    var late := m + RETENTION + 1;
    [Mark(true, token, m), Check(0, m), Sweep(late), Mark(true, token, late), Check(1, late)]
  }

  lemma RunPush(codec: Codec, events: seq<Event>, e: Event)
    ensures Run(codec, events + [e]) == Step(codec, Run(codec, events), e)
  {
    assert (events + [e])[..|events|] == events;
  }

  lemma ReplayRunSucceedsTwice(codec: Codec, token: string, m: int)
    requires 0 <= m && Screen(codec, true, token).None? && ClaimOf(codec, token).Some?
    requires m + MARGIN < ClaimOf(codec, token).value.1
    ensures ClockOrder(ReplayRun(token, m)) && FirstPresentedAt(codec, ReplayRun(token, m), token, m)
    ensures Won(Run(codec, ReplayRun(token, m)), token, 0) && Won(Run(codec, ReplayRun(token, m)), token, 1)
    ensures SucceedsTwice(codec, ReplayRun(token, m), token)
  {
    var late := m + RETENTION + 1;
    SuccessMeans(codec, token, m);
    SuccessMeans(codec, token, late);
    var e := ReplayRun(token, m);
    assert [] + [e[0]] == e[..1] && e[..1] + [e[1]] == e[..2] && e[..2] + [e[2]] == e[..3]
        && e[..3] + [e[3]] == e[..4] && e[..4] + [e[4]] == e;
    RunPush(codec, [], e[0]);
    RunPush(codec, e[..1], e[1]);
    assert Run(codec, e[..2]) == State(map[token := m], map[], map[0 := token], 1, m);
    RunPush(codec, e[..2], e[2]);
    assert Run(codec, e[..3]) == State(map[], map[], map[0 := token], 1, late);
    RunPush(codec, e[..3], e[3]);
    RunPush(codec, e[..4], e[4]);
    assert Won(Run(codec, e), token, 0) && Won(Run(codec, e), token, 1);
    assert Presents(codec, e[0], token) && e[0].now == m;
  }

  /**
    A token first presented at m can be made to succeed twice exactly when its stamp lies
    more than five minutes after m, the excess of the retention over the lifetime.
   */
  lemma MarginIsExact(codec: Codec, token: string, m: int)
    requires 0 <= m && Screen(codec, true, token).None? && ClaimOf(codec, token).Some?
    ensures (exists events ::
               ClockOrder(events) && FirstPresentedAt(codec, events, token, m) && SucceedsTwice(codec, events, token))
       <==> m + MARGIN < ClaimOf(codec, token).value.1
  {
    if m + MARGIN < ClaimOf(codec, token).value.1 {
      ReplayRunSucceedsTwice(codec, token, m);
    } else {
      forall events | ClockOrder(events) && FirstPresentedAt(codec, events, token, m)
        ensures !SucceedsTwice(codec, events, token)
      {
        NoDoubleSuccess(codec, events, token);
      }
    }
  }

  // ---- Sweeping never changes who succeeds ---------------------------------------------

  function WithoutSweeps(events: seq<Event>): seq<Event> {
    if events == [] then []
    else
      var rest := WithoutSweeps(events[..|events| - 1]);
      var last := events[|events| - 1];
      if last.Sweep? then rest else rest + [last]
  }

  /**
    As far as one token is concerned, the run without sweeps remembers more, but only what is
    too old to matter; and a call may be missing from it only if it can no longer succeed.
   */
  ghost predicate Simulates(s: State, u: State, token: string, stamp: int) {
    && u.calls == s.calls
    && (forall c :: Won(u, token, c) <==> Won(s, token, c))
    && (forall c :: Holds(u, token, c) ==> Holds(s, token, c))
    && (s.clock <= stamp + LIFETIME ==>
         && (token in s.used <==> token in u.used)
         && (forall c :: Holds(s, token, c) ==> Holds(u, token, c)))
    && (token in s.used ==> token in u.used && stamp <= s.used[token] + MARGIN)
  }

  lemma MarkSimulates(codec: Codec, s: State, u: State, e: Event, token: string, stamp: int)
    requires e.Mark? && Simulates(s, u, token, stamp) && CallsOk(s) && CallsOk(u) && s.clock <= e.now
    requires InTime(codec, e, token, stamp)
    ensures Simulates(Step(codec, s, e), Step(codec, u, e), token, stamp)
  {
    MarkHolds(codec, s, e, token);
    MarkHolds(codec, u, e, token);
    MarkCounts(codec, s, e);
    MarkCounts(codec, u, e);
  }

  lemma MarkCounts(codec: Codec, s: State, e: Event)
    requires e.Mark?
    ensures Step(codec, s, e).calls == s.calls + 1 && Step(codec, s, e).clock == e.now
  {}

  /** What a marking changes about one token. */
  lemma MarkHolds(codec: Codec, s: State, e: Event, token: string)
    requires e.Mark? && CallsOk(s)
    ensures var s' := Step(codec, s, e);
            && (forall c :: Won(s', token, c) <==> Won(s, token, c))
            && (forall c :: Holds(s', token, c) <==>
                  Holds(s, token, c) || (c == s.calls && Presents(codec, e, token) && token !in s.used))
            && (token in s'.used <==> token in s.used || Presents(codec, e, token))
            && (token in s.used ==> s'.used[token] == s.used[token])
            && (token in s'.used && token !in s.used ==> s'.used[token] == e.now)
  {}

  /** What an age check changes about one token. */
  lemma CheckHolds(codec: Codec, s: State, e: Event, token: string)
    requires e.Check? && CallsOk(s)
    ensures var s' := Step(codec, s, e);
            && (forall c :: Holds(s', token, c) <==> Holds(s, token, c) && c != e.call)
            && (forall c :: Won(s', token, c) <==>
                  Won(s, token, c) || (c == e.call && Holds(s, token, c) && Judge(codec, token, e.now).Success?))
            && s'.used == s.used && s'.calls == s.calls
  {}

  lemma CheckSimulates(codec: Codec, s: State, u: State, e: Event, token: string, stamp: int)
    requires e.Check? && Simulates(s, u, token, stamp) && CallsOk(s) && CallsOk(u) && s.clock <= e.now
    requires ClaimOf(codec, token).Some? && ClaimOf(codec, token).value.1 == stamp
    ensures Simulates(Step(codec, s, e), Step(codec, u, e), token, stamp)
  {
    CheckHolds(codec, s, e, token);
    CheckHolds(codec, u, e, token);
    SuccessMeans(codec, token, e.now);
  }

  lemma SweepSimulates(codec: Codec, s: State, u: State, e: Event, token: string, stamp: int)
    requires e.Sweep? && Simulates(s, u, token, stamp) && s.clock <= e.now
    ensures Simulates(Step(codec, s, e), u, token, stamp)
  {
    assert forall c :: Won(Step(codec, s, e), token, c) <==> Won(s, token, c);
    assert forall c :: Holds(Step(codec, s, e), token, c) <==> Holds(s, token, c);
  }

  lemma StepSimulates(codec: Codec, s: State, u: State, e: Event, token: string, stamp: int)
    requires Simulates(s, u, token, stamp) && CallsOk(s) && CallsOk(u) && s.clock <= e.now
    requires ClaimOf(codec, token).Some? && ClaimOf(codec, token).value.1 == stamp && InTime(codec, e, token, stamp)
    ensures Simulates(Step(codec, s, e), if e.Sweep? then u else Step(codec, u, e), token, stamp)
  {
    match e
    case Mark(_, _, _) => MarkSimulates(codec, s, u, e, token, stamp);
    case Check(_, _) => CheckSimulates(codec, s, u, e, token, stamp);
    case Sweep(_) => SweepSimulates(codec, s, u, e, token, stamp);
  }

  lemma {:induction false} RunSimulates(codec: Codec, events: seq<Event>, token: string, stamp: int)
    requires ClockOrder(events) && ClaimOf(codec, token).Some? && ClaimOf(codec, token).value.1 == stamp
    requires forall e :: e in events ==> InTime(codec, e, token, stamp)
    ensures Simulates(Run(codec, events), Run(codec, WithoutSweeps(events)), token, stamp)
  {
    if events != [] {
      var n := |events| - 1;
      RunSimulates(codec, events[..n], token, stamp);
      RunClock(codec, events[..n]);
      RunClock(codec, WithoutSweeps(events[..n]));
      StepSimulates(codec, Run(codec, events[..n]), Run(codec, WithoutSweeps(events[..n])), events[n], token, stamp);
      if !events[n].Sweep? {
        RunPush(codec, WithoutSweeps(events[..n]), events[n]);
      }
    }
  }

  /** Leaving the sweeps out changes which calls succeed with the token. */
  ghost predicate SweepsMatter(codec: Codec, events: seq<Event>, token: string) {
    exists c :: Won(Run(codec, WithoutSweeps(events)), token, c) != Won(Run(codec, events), token, c)
  }

  /** The sweeps never matter to a token presented in time. */
  lemma SweepsAreInvisible(codec: Codec, events: seq<Event>, token: string)
    requires ClockOrder(events)
    requires ClaimOf(codec, token).Some? ==>
               forall e :: e in events ==> InTime(codec, e, token, ClaimOf(codec, token).value.1)
    ensures !SweepsMatter(codec, events, token)
  {
    if ClaimOf(codec, token).Some? {
      RunSimulates(codec, events, token, ClaimOf(codec, token).value.1);
    } else {
      forall c ensures !Won(Run(codec, events), token, c) && !Won(Run(codec, WithoutSweeps(events)), token, c) {
        if Won(Run(codec, events), token, c) { WinnersClaim(codec, events, c); }
        if Won(Run(codec, WithoutSweeps(events)), token, c) { WinnersClaim(codec, WithoutSweeps(events), c); }
      }
    }
  }

  /** If every token is presented in time, leaving the sweeps out changes no success at all. */
  lemma AllSweepsInvisible(codec: Codec, events: seq<Event>)
    requires ClockOrder(events)
    requires forall e, token :: e in events && ClaimOf(codec, token).Some? ==>
               InTime(codec, e, token, ClaimOf(codec, token).value.1)
    ensures Run(codec, WithoutSweeps(events)).wins == Run(codec, events).wins
  {
    var s, u := Run(codec, events), Run(codec, WithoutSweeps(events));
    forall c | c in s.wins ensures Won(u, s.wins[c], c) {
      SweepsAreInvisible(codec, events, s.wins[c]);
      assert Won(s, s.wins[c], c);
    }
    forall c | c in u.wins ensures Won(s, u.wins[c], c) {
      SweepsAreInvisible(codec, events, u.wins[c]);
      assert Won(u, u.wins[c], c);
    }
  }

  lemma WithoutSweepsPush(events: seq<Event>, e: Event)
    ensures WithoutSweeps(events + [e]) == if e.Sweep? then WithoutSweeps(events) else WithoutSweeps(events) + [e]
  {
    assert (events + [e])[..|events|] == events;
  }

  lemma ReplayWithoutSweeps(token: string, m: int)
    ensures var e := ReplayRun(token, m);
            WithoutSweeps(e) == [] + [e[0]] + [e[1]] + [e[3]] + [e[4]]
  {
    var e := ReplayRun(token, m);
    assert [] + [e[0]] == e[..1] && e[..1] + [e[1]] == e[..2] && e[..2] + [e[2]] == e[..3]
        && e[..3] + [e[3]] == e[..4] && e[..4] + [e[4]] == e;
    WithoutSweepsPush([], e[0]);
    WithoutSweepsPush(e[..1], e[1]);
    WithoutSweepsPush(e[..2], e[2]);
    WithoutSweepsPush(e[..3], e[3]);
    WithoutSweepsPush(e[..4], e[4]);
  }

  lemma MarkedOnce(codec: Codec, token: string, m: int)
    requires Screen(codec, true, token).None?
    ensures var s := Run(codec, [] + [Mark(true, token, m)] + [Check(0, m)]);
            token in s.used && s.pending == map[] && 1 !in s.wins
  {
    RunPush(codec, [], Mark(true, token, m));
    RunPush(codec, [] + [Mark(true, token, m)], Check(0, m));
  }

  /** Had it not been swept, the token's second call would have been refused. */
  lemma ReplayRunWithoutSweep(codec: Codec, token: string, m: int)
    requires Screen(codec, true, token).None?
    ensures !Won(Run(codec, WithoutSweeps(ReplayRun(token, m))), token, 1)
  {
    var e := ReplayRun(token, m);
    var once := [] + [e[0]] + [e[1]];
    ReplayWithoutSweeps(token, m);
    MarkedOnce(codec, token, m);
    RunPush(codec, once, e[3]);
    RunPush(codec, once + [e[3]], e[4]);
  }

  /**
    For a token first presented at m, the sweeps can change which calls succeed with it exactly
    when its stamp lies more than five minutes after m.
   */
  lemma SweepsMatterExactly(codec: Codec, token: string, m: int)
    requires 0 <= m && Screen(codec, true, token).None? && ClaimOf(codec, token).Some?
    ensures (exists events ::
               ClockOrder(events) && FirstPresentedAt(codec, events, token, m) && SweepsMatter(codec, events, token))
       <==> m + MARGIN < ClaimOf(codec, token).value.1
  {
    if m + MARGIN < ClaimOf(codec, token).value.1 {
      ReplaySweepMatters(codec, token, m);
    } else {
      forall events | ClockOrder(events) && FirstPresentedAt(codec, events, token, m)
        ensures !SweepsMatter(codec, events, token)
      {
        SweepsAreInvisible(codec, events, token);
      }
    }
  }

  lemma ReplaySweepMatters(codec: Codec, token: string, m: int)
    requires 0 <= m && Screen(codec, true, token).None? && ClaimOf(codec, token).Some?
    requires m + MARGIN < ClaimOf(codec, token).value.1
    ensures var events := ReplayRun(token, m);
            ClockOrder(events) && FirstPresentedAt(codec, events, token, m) && SweepsMatter(codec, events, token)
  {
    ReplayRunSucceedsTwice(codec, token, m);
    ReplayRunWithoutSweep(codec, token, m);
  }

  // ---- A fresh token is accepted ----------------------------------------------------------

  /**
    A signed token with a plain ID passes the signature check, and its first presentation
    succeeds exactly while the whole seconds of its signing time are at most ten minutes old.
   */
  lemma FreshTokenSucceeds(codec: Codec, id: string, signedAt: int, now: int)
    requires Lawful(codec) && Expressible(signedAt) && PlainID(id)
    ensures Screen(codec, true, Sign(codec, id, signedAt)) == None
    ensures Judge(codec, Sign(codec, id, signedAt), now)
         == if now - Stamped(signedAt) <= 600_000_000_000 then Success(id, codec.format(signedAt)) else Expired
  {
    SignedTokenParses(codec, id, signedAt);
  }

  /** Marking an unused token and then checking it in time completes one successful call. */
  lemma MarkThenCheck(codec: Codec, s: State, token: string, now: int)
    requires CallsOk(s) && token !in s.used
    requires Screen(codec, true, token).None? && Judge(codec, token, now).Success?
    ensures Step(codec, Step(codec, s, Mark(true, token, now)), Check(s.calls, now))
         == State(s.used[token := now], s.pending, s.wins[s.calls := token], s.calls + 1, now)
  {
    assert s.pending[s.calls := token] - {s.calls} == s.pending;
  }
}
