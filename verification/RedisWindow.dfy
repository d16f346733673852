/**
  The distributed limiter (internal/middleware/ratelimit.go, redisAllow): concurrent callers
  each read their clock, prune the key's sorted set, count it, and if there is room add their
  stamp and renew the key's time to live. The commands of different callers interleave freely.

  Time is in microseconds, the unit of the scores. A member is the decimal form of its own
  score, so the set of stamps determines the sorted set.
 */
module RedisWindow {
  import opened Prelude

  // ---- One key of the server, and the commands that redisAllow sends it -------

  datatype Key = Key(members: set<int>, deadline: Option<int>)

  const NO_KEY := Key({}, None)

  /** ZREMRANGEBYSCORE key 0 cutoff; a sorted set left empty is deleted with its deadline. */
  function RemoveUpTo(k: Key, cutoff: int): Key {
    var kept := set m | m in k.members && !(0 <= m <= cutoff);
    Key(kept, if kept == {} then None else k.deadline)
  }

  /** ZADD: leaves the deadline alone, and a key that was absent has none. */
  function Add(k: Key, stamp: int): Key { k.(members := k.members + {stamp}) }

  /** EXPIRE: has no effect on an absent key. */
  function ExpireAt(k: Key, at: int): Key {
    if k.members == {} then k else k.(deadline := Some(at))
  }

  /** The key as the server sees it once the clock shows `now`. */
  function AsOf(k: Key, now: int): Key {
    if k.deadline.Some? && k.deadline.value <= now then NO_KEY else k
  }

  // ---- The protocol ---------------------------------------------------------------

  /** `slack` is what the time to live exceeds the window by. */
  datatype Config = Config(limit: int, window: int, slack: int) {
    ghost predicate Sane() { limit > 0 && window > 0 && slack > 0 }
  }

  /** How far a caller has got, with the stamp it read at the start. */
  datatype Phase = Idle | Begun(stamp: int) | Pruned(stamp: int) | Passed(stamp: int) | Added(stamp: int)

  /** `admitted` records every stamp ever added. */
  datatype State = State(key: Key, callers: seq<Phase>, clock: int, admitted: set<int>)

  datatype Event =
    | Tick(to: int)
    | Begin(caller: nat)
    | Prune(caller: nat)
    | Count(caller: nat)
    | Insert(caller: nat)
    | Renew(caller: nat)
    | Abandon(caller: nat)

  /**
    `patience` bounds how old a caller's stamp may be when it inserts it and until it has
    renewed the deadline. Everything else may be delayed at will.
   */
  predicate Enabled(s: State, patience: int, e: Event) {
    match e
    case Tick(to) =>
      && s.clock <= to
      && forall c :: 0 <= c < |s.callers| && s.callers[c].Added? ==> to <= s.callers[c].stamp + patience
    case Begin(c) => c < |s.callers| && s.callers[c].Idle?
    case Prune(c) => c < |s.callers| && s.callers[c].Begun?
    case Count(c) => c < |s.callers| && s.callers[c].Pruned?
    case Insert(c) => c < |s.callers| && s.callers[c].Passed? && s.clock <= s.callers[c].stamp + patience
    case Renew(c) => c < |s.callers| && s.callers[c].Added?
    case Abandon(c) => c < |s.callers| && (s.callers[c].Begun? || s.callers[c].Pruned? || s.callers[c].Passed?)
  }

  function Step(cfg: Config, s: State, patience: int, e: Event): State
    requires Enabled(s, patience, e)
  {
    match e
    case Tick(to) => s.(clock := to, key := AsOf(s.key, to))
    case Begin(c) => s.(callers := s.callers[c := Begun(s.clock)])
    case Prune(c) =>
      var stamp := s.callers[c].stamp;
      s.(key := RemoveUpTo(s.key, stamp - cfg.window), callers := s.callers[c := Pruned(stamp)])
    case Count(c) =>
      s.(callers := s.callers[c := if |s.key.members| >= cfg.limit then Idle else Passed(s.callers[c].stamp)])
    case Insert(c) =>
      var stamp := s.callers[c].stamp;
      s.(key := Add(s.key, stamp), callers := s.callers[c := Added(stamp)], admitted := s.admitted + {stamp})
    case Renew(c) =>
      s.(key := ExpireAt(s.key, s.clock + cfg.window + cfg.slack), callers := s.callers[c := Idle])
    case Abandon(c) => s.(callers := s.callers[c := Idle])
  }

  function Idlers(n: nat): (callers: seq<Phase>)
    ensures |callers| == n && forall c :: 0 <= c < n ==> callers[c] == Idle
  {
    seq(n, _ => Idle)
  }

  function Init(callers: nat): State { State(NO_KEY, Idlers(callers), 0, {}) }

  /** The state after the events, or None if some event was not enabled in its turn. */
  function Exec(cfg: Config, callers: nat, patience: int, events: seq<Event>): Option<State> {
    if events == [] then Some(Init(callers))
    else
      var n := |events| - 1;
      match Exec(cfg, callers, patience, events[..n])
      case None => None
      case Some(s) => if Enabled(s, patience, events[n]) then Some(Step(cfg, s, patience, events[n])) else None
  }

  // ---- The set never outgrows the limit by more than the concurrency --------------

  function NumPassed(callers: seq<Phase>): nat {
    if callers == [] then 0
    else NumPassed(callers[..|callers| - 1]) + (if callers[|callers| - 1].Passed? then 1 else 0)
  }

  lemma {:induction false} NumPassedUpdate(callers: seq<Phase>, c: nat, p: Phase)
    requires c < |callers|
    ensures NumPassed(callers[c := p])
         == NumPassed(callers) - (if callers[c].Passed? then 1 else 0) + (if p.Passed? then 1 else 0)
  {
    var n := |callers| - 1;
    if c < n {
      NumPassedUpdate(callers[..n], c, p);
      assert callers[c := p][..n] == callers[..n][c := p];
    } else {
      assert callers[c := p][..n] == callers[..n];
    }
  }

  lemma {:induction false} NumPassedAtMost(callers: seq<Phase>)
    ensures NumPassed(callers) <= |callers|
  {
    if callers != [] { NumPassedAtMost(callers[..|callers| - 1]); }
  }

  ghost predicate Bounded(cfg: Config, s: State) {
    |s.key.members| + NumPassed(s.callers) <= cfg.limit - 1 + |s.callers|
  }

  lemma StepBounded(cfg: Config, s: State, patience: int, e: Event)
    requires cfg.Sane() && Enabled(s, patience, e) && Bounded(cfg, s)
    ensures Bounded(cfg, Step(cfg, s, patience, e))
  {
    var s' := Step(cfg, s, patience, e);
    if !e.Tick? {
      NumPassedUpdate(s.callers, e.caller, s'.callers[e.caller]);
      NumPassedAtMost(s'.callers);
    }
    if e.Prune? {
      SubsetSize(s'.key.members, s.key.members);
    }
  }

  // ---- No stamp is forgotten while it is in the window ------------------------------

  /** Some caller that has inserted but not yet renewed read its clock before t. */
  ghost predicate RenewalDue(s: State, t: int) {
    exists c :: 0 <= c < |s.callers| && s.callers[c].Added? && s.callers[c].stamp < t
  }

  ghost predicate Renewing(s: State, m: int) {
    exists c :: 0 <= c < |s.callers| && s.callers[c] == Added(m)
  }

  /** Stamps were read no later than now, and stored ones were once admitted. */
  ghost predicate StampsOk(s: State, patience: int) {
    && 0 <= s.clock
    && (forall c :: 0 <= c < |s.callers| && !s.callers[c].Idle? ==> 0 <= s.callers[c].stamp <= s.clock)
    && (forall c :: 0 <= c < |s.callers| && s.callers[c].Added? ==> s.clock <= s.callers[c].stamp + patience)
    && s.key.members <= s.admitted
    && (forall m :: m in s.admitted ==> 0 <= m <= s.clock)
    && (s.key.members == {} ==> s.key.deadline == None)
  }

  /** No admitted stamp of the trailing window is missing from the set. */
  ghost predicate Remembers(cfg: Config, s: State) {
    forall m :: m in s.admitted && s.clock - cfg.window < m ==> m in s.key.members
  }

  /**
    While the key has a deadline d, last renewed at d - window - slack: a younger stamp
    belongs to a caller about to renew, and a caller whose prune saw the key survive was
    not late, or somebody earlier is about to renew.
   */
  ghost predicate DeadlineOk(cfg: Config, s: State) {
    s.key.deadline.Some? ==>
      var d := s.key.deadline.value;
      && s.clock < d
      && (forall m :: m in s.key.members && d - cfg.window - cfg.slack < m ==> Renewing(s, m))
      && (forall c :: 0 <= c < |s.callers| && (s.callers[c].Pruned? || s.callers[c].Passed? || s.callers[c].Added?) ==>
            s.callers[c].stamp < d - cfg.slack || RenewalDue(s, d - cfg.slack))
  }

  ghost predicate Inv(cfg: Config, s: State, patience: int) {
    StampsOk(s, patience) && Remembers(cfg, s) && DeadlineOk(cfg, s)
  }

  /** When the deadline comes, nobody is still due to renew, so every stored stamp is old. */
  lemma NothingYoungAtDeadline(cfg: Config, s: State, patience: int, to: int)
    requires cfg.Sane() && patience <= cfg.slack && Inv(cfg, s, patience) && Enabled(s, patience, Tick(to))
    requires s.key.deadline.Some? && s.key.deadline.value <= to
    ensures forall m :: m in s.key.members ==> m <= to - cfg.window
  {}

  lemma TickKeeps(cfg: Config, s: State, patience: int, to: int)
    requires cfg.Sane() && patience <= cfg.slack && Inv(cfg, s, patience) && Enabled(s, patience, Tick(to))
    ensures Inv(cfg, Step(cfg, s, patience, Tick(to)), patience)
  {
    var s' := Step(cfg, s, patience, Tick(to));
    if s.key.deadline.Some? {
      if s.key.deadline.value <= to {
        NothingYoungAtDeadline(cfg, s, patience, to);
      } else {
        assert forall m :: Renewing(s, m) ==> Renewing(s', m);
        assert forall t :: RenewalDue(s, t) ==> RenewalDue(s', t);
      }
    }
  }

  /** A caller that has not inserted changes phase, and the key at most loses old stamps. */
  lemma StillRenewing(s: State, s': State, c: nat)
    requires c < |s.callers| == |s'.callers| && !s.callers[c].Added?
    requires s'.callers == s.callers[c := s'.callers[c]]
    ensures forall m :: Renewing(s, m) ==> Renewing(s', m)
    ensures forall t :: RenewalDue(s, t) ==> RenewalDue(s', t)
  {
    forall m | Renewing(s, m) ensures Renewing(s', m) {
      var i :| 0 <= i < |s.callers| && s.callers[i] == Added(m);
      assert s'.callers[i] == Added(m);
    }
    forall t | RenewalDue(s, t) ensures RenewalDue(s', t) {
      var i :| 0 <= i < |s.callers| && s.callers[i].Added? && s.callers[i].stamp < t;
      assert s'.callers[i] == s.callers[i];
    }
  }

  lemma PhaseKeeps(cfg: Config, s: State, patience: int, e: Event)
    requires cfg.Sane() && patience <= cfg.slack && Inv(cfg, s, patience) && Enabled(s, patience, e)
    requires e.Begin? || e.Count? || e.Abandon?
    ensures Inv(cfg, Step(cfg, s, patience, e), patience)
  {
    StillRenewing(s, Step(cfg, s, patience, e), e.caller);
  }

  /**
    A prune that leaves the key alive left some member in it: an old one shows that the
    pruning caller was early enough, a young one that another caller is about to renew.
   */
  lemma PruneKeeps(cfg: Config, s: State, patience: int, c: nat)
    requires cfg.Sane() && patience <= cfg.slack && Inv(cfg, s, patience) && Enabled(s, patience, Prune(c))
    ensures Inv(cfg, Step(cfg, s, patience, Prune(c)), patience)
  {
    var s' := Step(cfg, s, patience, Prune(c));
    StillRenewing(s, s', c);
    if s'.key.deadline.Some? {
      var m :| m in s'.key.members;
      assert s.callers[c].stamp - cfg.window < m;
    }
  }

  lemma InsertKeeps(cfg: Config, s: State, patience: int, c: nat)
    requires cfg.Sane() && patience <= cfg.slack && Inv(cfg, s, patience) && Enabled(s, patience, Insert(c))
    ensures Inv(cfg, Step(cfg, s, patience, Insert(c)), patience)
  {
    var s' := Step(cfg, s, patience, Insert(c));
    StillRenewing(s, s', c);
    assert s'.callers[c] == Added(s.callers[c].stamp);
  }

  lemma RenewKeeps(cfg: Config, s: State, patience: int, c: nat)
    requires cfg.Sane() && patience <= cfg.slack && Inv(cfg, s, patience) && Enabled(s, patience, Renew(c))
    ensures Inv(cfg, Step(cfg, s, patience, Renew(c)), patience)
  {}

  lemma {:induction false} ExecInv(cfg: Config, callers: nat, patience: int, events: seq<Event>)
    requires cfg.Sane() && patience <= cfg.slack
    ensures var r := Exec(cfg, callers, patience, events);
            r.Some? ==> Inv(cfg, r.value, patience)
  {
    if events != [] {
      var n := |events| - 1;
      ExecInv(cfg, callers, patience, events[..n]);
      var before := Exec(cfg, callers, patience, events[..n]);
      if before.Some? && Enabled(before.value, patience, events[n]) {
        match events[n]
        case Tick(to) => TickKeeps(cfg, before.value, patience, to);
        case Prune(c) => PruneKeeps(cfg, before.value, patience, c);
        case Insert(c) => InsertKeeps(cfg, before.value, patience, c);
        case Renew(c) => RenewKeeps(cfg, before.value, patience, c);
        case _ => PhaseKeeps(cfg, before.value, patience, events[n]);
      }
    }
  }

  lemma {:induction false} NobodyPassed(callers: nat)
    ensures NumPassed(Idlers(callers)) == 0
  {
    if callers > 0 {
      assert Idlers(callers)[..callers - 1] == Idlers(callers - 1);
      NobodyPassed(callers - 1);
    }
  }

  lemma {:induction false} ExecBounded(cfg: Config, callers: nat, patience: int, events: seq<Event>)
    requires cfg.Sane()
    ensures var r := Exec(cfg, callers, patience, events);
            r.Some? ==> |r.value.callers| == callers && Bounded(cfg, r.value)
  {
    if events == [] {
      NobodyPassed(callers);
    } else {
      var n := |events| - 1;
      ExecBounded(cfg, callers, patience, events[..n]);
      var before := Exec(cfg, callers, patience, events[..n]);
      if before.Some? && Enabled(before.value, patience, events[n]) {
        StepBounded(cfg, before.value, patience, events[n]);
      }
    }
  }

  // ---- A limit of one forgives any delay -----------------------------------------------

  /**
    At limit 1 a caller passes the count only while the set is empty and has no deadline, so
    the next renewal comes after every stamp then stored or about to be stored was read.
   */
  ghost predicate OneOk(cfg: Config, s: State) {
    s.key.deadline.Some? ==>
      var renewed := s.key.deadline.value - cfg.window - cfg.slack;
      && s.clock < s.key.deadline.value
      && (forall m :: m in s.key.members ==> m <= renewed)
      && (forall c :: 0 <= c < |s.callers| && (s.callers[c].Passed? || s.callers[c].Added?) ==>
            s.callers[c].stamp <= renewed)
  }

  ghost predicate InvOne(cfg: Config, s: State, patience: int) {
    StampsOk(s, patience) && Remembers(cfg, s) && OneOk(cfg, s)
  }

  lemma CommandKeepsOne(cfg: Config, s: State, patience: int, e: Event)
    requires cfg.Sane() && cfg.limit == 1 && InvOne(cfg, s, patience) && Enabled(s, patience, e)
    requires !e.Tick? && !e.Prune?
    ensures InvOne(cfg, Step(cfg, s, patience, e), patience)
  {
    if e.Count? && s.key.members != {} {
      SubsetSize({}, s.key.members);
    }
  }

  lemma TickOrPruneKeepsOne(cfg: Config, s: State, patience: int, e: Event)
    requires cfg.Sane() && cfg.limit == 1 && InvOne(cfg, s, patience) && Enabled(s, patience, e)
    requires e.Tick? || e.Prune?
    ensures InvOne(cfg, Step(cfg, s, patience, e), patience)
  {}

  lemma {:induction false} ExecInvOne(cfg: Config, callers: nat, patience: int, events: seq<Event>)
    requires cfg.Sane() && cfg.limit == 1
    ensures var r := Exec(cfg, callers, patience, events);
            r.Some? ==> InvOne(cfg, r.value, patience)
  {
    if events != [] {
      var n := |events| - 1;
      ExecInvOne(cfg, callers, patience, events[..n]);
      var before := Exec(cfg, callers, patience, events[..n]);
      if before.Some? && Enabled(before.value, patience, events[n]) {
        if events[n].Tick? || events[n].Prune? {
          TickOrPruneKeepsOne(cfg, before.value, patience, events[n]);
        } else {
          CommandKeepsOne(cfg, before.value, patience, events[n]);
        }
      }
    }
  }

  // ---- Memory and cap ---------------------------------------------------------------------

  /**
    Neither a prune nor the time to live ever drops a stamp that is still in the window, if
    calls renew within the slack or the limit is 1.
   */
  lemma NoStampForgotten(cfg: Config, callers: nat, patience: int, events: seq<Event>, m: int)
    requires cfg.Sane() && (patience <= cfg.slack || cfg.limit == 1)
    requires var r := Exec(cfg, callers, patience, events);
             r.Some? && m in r.value.admitted && r.value.clock - cfg.window < m
    ensures m in Exec(cfg, callers, patience, events).value.key.members
  {
    if cfg.limit == 1 {
      ExecInvOne(cfg, callers, patience, events);
    } else {
      ExecInv(cfg, callers, patience, events);
    }
  }

  function InWindow(cfg: Config, s: State): set<int> {
    set m | m in s.admitted && s.clock - cfg.window < m
  }

  /**
    However the commands of the callers interleave, the stamps admitted in the trailing
    window number at most limit - 1 + callers, counting callers past the count as admitted;
    again if calls renew within the slack or the limit is 1.
   */
  lemma ConcurrentCap(cfg: Config, callers: nat, patience: int, events: seq<Event>)
    requires cfg.Sane() && (patience <= cfg.slack || cfg.limit == 1)
    requires Exec(cfg, callers, patience, events).Some?
    ensures var s := Exec(cfg, callers, patience, events).value;
            |InWindow(cfg, s)| + NumPassed(s.callers) <= cfg.limit - 1 + callers
  {
    var s := Exec(cfg, callers, patience, events).value;
    ExecBounded(cfg, callers, patience, events);
    forall m | m in InWindow(cfg, s) ensures m in s.key.members {
      NoStampForgotten(cfg, callers, patience, events, m);
    }
    SubsetSize(InWindow(cfg, s), s.key.members);
  }

  // ---- Undisturbed calls --------------------------------------------------------------------

  lemma ExecPush(cfg: Config, callers: nat, patience: int, events: seq<Event>, e: Event)
    ensures Exec(cfg, callers, patience, events + [e])
         == match Exec(cfg, callers, patience, events)
            case None => None
            case Some(s) => if Enabled(s, patience, e) then Some(Step(cfg, s, patience, e)) else None
  {
    assert (events + [e])[..|events|] == events;
  }

  /** Caller 0 asks whether there is room, nobody else moving, at the state's own clock. */
  function AskEvents(): seq<Event> { [Begin(0), Prune(0), Count(0)] }

  function CallEvents(): seq<Event> { AskEvents() + [Insert(0)] }

  function PrunedNow(cfg: Config, s: State): Key { RemoveUpTo(s.key, s.clock - cfg.window) }

  /** Caller 0 has inserted its stamp, and not yet renewed. */
  function Inserted(cfg: Config, s: State): State
    requires s.callers != []
  {
    s.(key := Add(PrunedNow(cfg, s), s.clock), callers := s.callers[0 := Added(s.clock)],
       admitted := s.admitted + {s.clock})
  }

  /** Caller 0 has completed an admitted call. */
  function Completed(cfg: Config, s: State): State {
    s.(key := ExpireAt(Add(PrunedNow(cfg, s), s.clock), s.clock + cfg.window + cfg.slack),
       admitted := s.admitted + {s.clock})
  }

  lemma LoneQuestion(cfg: Config, n: nat, patience: int, events: seq<Event>, s: State)
    requires Exec(cfg, n, patience, events) == Some(s) && s.callers != [] && s.callers[0] == Idle
    ensures var answer := if |PrunedNow(cfg, s).members| >= cfg.limit then Idle else Passed(s.clock);
            Exec(cfg, n, patience, events + AskEvents())
              == Some(s.(key := PrunedNow(cfg, s), callers := s.callers[0 := answer]))
  {
    var answer := if |PrunedNow(cfg, s).members| >= cfg.limit then Idle else Passed(s.clock);
    var e1 := events + [Begin(0)];
    ExecPush(cfg, n, patience, events, Begin(0));
    var e2 := e1 + [Prune(0)];
    ExecPush(cfg, n, patience, e1, Prune(0));
    ExecPush(cfg, n, patience, e2, Count(0));
    assert s.callers[0 := Begun(s.clock)][0 := Pruned(s.clock)][0 := answer] == s.callers[0 := answer];
    assert e2 + [Count(0)] == events + AskEvents();
  }

  lemma LoneRefusal(cfg: Config, n: nat, patience: int, events: seq<Event>, s: State)
    requires Exec(cfg, n, patience, events) == Some(s) && s.callers != [] && s.callers[0] == Idle
    requires |PrunedNow(cfg, s).members| >= cfg.limit
    ensures Exec(cfg, n, patience, events + AskEvents()) == Some(s.(key := PrunedNow(cfg, s)))
  {
    LoneQuestion(cfg, n, patience, events, s);
    assert s.callers[0 := Idle] == s.callers;
  }

  lemma LoneInsertion(cfg: Config, n: nat, patience: int, events: seq<Event>, s: State)
    requires Exec(cfg, n, patience, events) == Some(s) && s.callers != [] && s.callers[0] == Idle
    requires |PrunedNow(cfg, s).members| < cfg.limit && 0 <= patience
    ensures Exec(cfg, n, patience, events + CallEvents()) == Some(Inserted(cfg, s))
  {
    LoneQuestion(cfg, n, patience, events, s);
    ExecPush(cfg, n, patience, events + AskEvents(), Insert(0));
    assert s.callers[0 := Passed(s.clock)][0 := Added(s.clock)] == s.callers[0 := Added(s.clock)];
    assert (events + AskEvents()) + [Insert(0)] == events + CallEvents();
  }

  /** An undisturbed call that finds room leaves its stamp, and a deadline a window and the slack ahead. */
  lemma LoneAdmission(cfg: Config, n: nat, patience: int, events: seq<Event>, s: State)
    requires Exec(cfg, n, patience, events) == Some(s) && s.callers != [] && s.callers[0] == Idle
    requires |PrunedNow(cfg, s).members| < cfg.limit && 0 <= patience
    ensures Exec(cfg, n, patience, events + CallEvents() + [Renew(0)]) == Some(Completed(cfg, s))
  {
    LoneInsertion(cfg, n, patience, events, s);
    ExecPush(cfg, n, patience, events + CallEvents(), Renew(0));
    assert s.callers[0 := Added(s.clock)][0 := Idle] == s.callers;
  }

  /** A reachable key is never past its deadline. */
  lemma {:induction false} ReachableKeyLives(cfg: Config, callers: nat, patience: int, events: seq<Event>)
    requires cfg.Sane()
    ensures var r := Exec(cfg, callers, patience, events);
            r.Some? ==> AsOf(r.value.key, r.value.clock) == r.value.key
  {
    if events != [] {
      ReachableKeyLives(cfg, callers, patience, events[..|events| - 1]);
    }
  }

  // ---- One second of slack is exactly enough ------------------------------------------

  ghost predicate Reaches(cfg: Config, callers: nat, patience: int, s: State) {
    exists events :: Exec(cfg, callers, patience, events) == Some(s)
  }

  /** A property of states that holds at first and that every enabled event keeps. */
  ghost predicate Closed(cfg: Config, n: nat, patience: int, reached: State -> bool) {
    && reached(Init(n))
    && forall s, e :: reached(s) && Enabled(s, patience, e) ==> reached(Step(cfg, s, patience, e))
  }

  lemma ReachesClosed(cfg: Config, n: nat, patience: int)
    ensures Closed(cfg, n, patience, s => Reaches(cfg, n, patience, s))
  {
    assert Exec(cfg, n, patience, []) == Some(Init(n));
    forall s, e | Reaches(cfg, n, patience, s) && Enabled(s, patience, e)
      ensures Reaches(cfg, n, patience, Step(cfg, s, patience, e))
    {
      var events :| Exec(cfg, n, patience, events) == Some(s);
      ExecPush(cfg, n, patience, events, e);
    }
  }

  lemma StepReached(cfg: Config, n: nat, patience: int, reached: State -> bool, s: State, e: Event)
    requires Closed(cfg, n, patience, reached) && reached(s) && Enabled(s, patience, e)
    ensures reached(Step(cfg, s, patience, e))
  {}

  /** A caller that finds room. */
  function AskedBy(cfg: Config, s: State, c: nat): State
    requires c < |s.callers|
  {
    s.(key := PrunedNow(cfg, s), callers := s.callers[c := Passed(s.clock)])
  }

  lemma AskReached(cfg: Config, n: nat, patience: int, reached: State -> bool, s: State, c: nat)
    requires Closed(cfg, n, patience, reached) && reached(s)
    requires c < |s.callers| && s.callers[c] == Idle && |PrunedNow(cfg, s).members| < cfg.limit
    ensures reached(AskedBy(cfg, s, c))
  {
    var begun := s.(callers := s.callers[c := Begun(s.clock)]);
    var pruned := s.(key := PrunedNow(cfg, s), callers := s.callers[c := Pruned(s.clock)]);
    StepReached(cfg, n, patience, reached, s, Begin(c));
    StepReached(cfg, n, patience, reached, begun, Prune(c));
    assert begun.callers[c := Pruned(s.clock)] == pruned.callers;
    StepReached(cfg, n, patience, reached, pruned, Count(c));
    assert pruned.callers[c := Passed(s.clock)] == s.callers[c := Passed(s.clock)];
  }

  lemma InsertReached(cfg: Config, n: nat, patience: int, reached: State -> bool, s: State)
    requires Closed(cfg, n, patience, reached) && reached(s) && 0 <= patience
    requires s.callers != [] && s.callers[0] == Idle && |PrunedNow(cfg, s).members| < cfg.limit
    ensures reached(Inserted(cfg, s))
  {
    AskReached(cfg, n, patience, reached, s, 0);
    StepReached(cfg, n, patience, reached, AskedBy(cfg, s, 0), Insert(0));
    assert AskedBy(cfg, s, 0).callers[0 := Added(s.clock)] == s.callers[0 := Added(s.clock)];
  }

  lemma CompleteReached(cfg: Config, n: nat, patience: int, reached: State -> bool, s: State)
    requires Closed(cfg, n, patience, reached) && reached(s) && 0 <= patience
    requires s.callers != [] && s.callers[0] == Idle && |PrunedNow(cfg, s).members| < cfg.limit
    ensures reached(Completed(cfg, s))
  {
    InsertReached(cfg, n, patience, reached, s);
    StepReached(cfg, n, patience, reached, Inserted(cfg, s), Renew(0));
    assert Inserted(cfg, s).callers[0 := Idle] == s.callers;
  }

  /** Time passes while nobody is due to renew and no deadline comes. */
  lemma WaitReached(cfg: Config, n: nat, patience: int, reached: State -> bool, s: State, to: int)
    requires Closed(cfg, n, patience, reached) && reached(s) && s.clock <= to
    requires forall c :: 0 <= c < |s.callers| ==> !s.callers[c].Added?
    requires s.key.deadline.Some? ==> to < s.key.deadline.value
    ensures reached(s.(clock := to))
  {
    StepReached(cfg, n, patience, reached, s, Tick(to));
  }

  /** The first stamp of all, its deadline renewed. */
  function Renewed(cfg: Config, n: nat, clock: int): State {
    State(Key({0}, Some(cfg.window + cfg.slack)), Idlers(n), clock, {0})
  }

  lemma RenewedReached(cfg: Config, n: nat, patience: int, reached: State -> bool)
    requires cfg.Sane() && patience >= 0 && n > 0 && Closed(cfg, n, patience, reached)
    ensures reached(Renewed(cfg, n, cfg.window - 1))
  {
    assert PrunedNow(cfg, Init(n)) == NO_KEY;
    CompleteReached(cfg, n, patience, reached, Init(n));
    assert Completed(cfg, Init(n)) == Renewed(cfg, n, 0);
    WaitReached(cfg, n, patience, reached, Renewed(cfg, n, 0), cfg.window - 1);
  }

  /** A second stamp, read just before the first leaves the window and not yet renewed. */
  function Unrenewed(cfg: Config, n: nat): State
    requires n > 0
  {
    State(Key({0, cfg.window - 1}, Some(cfg.window + cfg.slack)), Idlers(n)[0 := Added(cfg.window - 1)],
          cfg.window - 1, {0, cfg.window - 1})
  }

  lemma RenewedPrune(cfg: Config, n: nat)
    requires cfg.Sane()
    ensures PrunedNow(cfg, Renewed(cfg, n, cfg.window - 1)) == Key({0}, Some(cfg.window + cfg.slack))
  {
    assert PrunedNow(cfg, Renewed(cfg, n, cfg.window - 1)).members == {0};
  }

  lemma UnrenewedReached(cfg: Config, n: nat, patience: int, reached: State -> bool)
    requires cfg.Sane() && cfg.limit >= 2 && patience >= 0 && n > 0 && Closed(cfg, n, patience, reached)
    ensures reached(Unrenewed(cfg, n))
  {
    RenewedReached(cfg, n, patience, reached);
    RenewedPrune(cfg, n);
    InsertReached(cfg, n, patience, reached, Renewed(cfg, n, cfg.window - 1));
    assert {0} + {cfg.window - 1} == {0, cfg.window - 1};
    assert Inserted(cfg, Renewed(cfg, n, cfg.window - 1)) == Unrenewed(cfg, n);
  }

  /** The old deadline has taken the fresh stamp with it. */
  function Lost(cfg: Config, n: nat): State
    requires n > 0
  {
    State(NO_KEY, Idlers(n)[0 := Added(cfg.window - 1)], cfg.window + cfg.slack, {0, cfg.window - 1})
  }

  lemma LostReached(cfg: Config, n: nat, patience: int, reached: State -> bool)
    requires cfg.Sane() && cfg.limit >= 2 && n > 0 && cfg.slack < patience && Closed(cfg, n, patience, reached)
    ensures reached(Lost(cfg, n))
  {
    UnrenewedReached(cfg, n, patience, reached);
    StepReached(cfg, n, patience, reached, Unrenewed(cfg, n), Tick(cfg.window + cfg.slack));
  }

  /** A caller slower than the slack, renewing late, loses a stamp that is still in the window. */
  lemma LateRenewalForgets(cfg: Config, n: nat, patience: int)
    requires cfg.Sane() && cfg.limit >= 2 && cfg.slack + 1 < cfg.window && n > 0
    requires cfg.slack < patience
    ensures Reaches(cfg, n, patience, Lost(cfg, n))
    ensures cfg.window - 1 in InWindow(cfg, Lost(cfg, n)) && Lost(cfg, n).key.members == {}
  {
    ReachesClosed(cfg, n, patience);
    LostReached(cfg, n, patience, s => Reaches(cfg, n, patience, s));
  }

  ghost predicate Forgetful(cfg: Config, patience: int) {
    exists callers: nat, s, m ::
      Reaches(cfg, callers, patience, s) && m in InWindow(cfg, s) && m !in s.key.members
  }

  /**
    Some run loses an in-window stamp exactly when the limit is at least 2 and calls may take
    longer than the slack from reading their clock to renewing the deadline; the source's
    slack is one second, its window a minute.
   */
  lemma SlackIsExact(cfg: Config, patience: int)
    requires cfg.Sane() && cfg.slack + 1 < cfg.window
    ensures Forgetful(cfg, patience) <==> cfg.limit >= 2 && cfg.slack < patience
  {
    if cfg.limit >= 2 && cfg.slack < patience {
      LateRenewalForgets(cfg, 1, patience);
    } else if Forgetful(cfg, patience) {
      var callers: nat, s, m :|
        Reaches(cfg, callers, patience, s) && m in InWindow(cfg, s) && m !in s.key.members;
      var events :| Exec(cfg, callers, patience, events) == Some(s);
      NoStampForgotten(cfg, callers, patience, events, m);
    }
  }

  // ---- So does the cap depend on it ------------------------------------------------------

  /** After the loss, caller 0 has been admitted at each of the stamps, the last a microsecond ago. */
  function Refilled(cfg: Config, n: nat, clock: int, stamps: set<int>): State {
    State(Key(stamps, if stamps == {} then None else Some(clock - 1 + cfg.window + cfg.slack)),
          Idlers(n), clock, {0, cfg.window - 1} + stamps)
  }

  /** Until `until` a prune leaves the set alone, there is room in it, and its deadline does not come. */
  ghost predicate RoomUntil(cfg: Config, s: State, until: int) {
    && |s.key.members| < cfg.limit && (forall m :: m in s.key.members ==> until - cfg.window < m)
    && (s.key.members == {} ==> s.key.deadline == None)
    && (s.key.deadline.Some? ==> until < s.key.deadline.value)
  }

  lemma NothingToPrune(cfg: Config, s: State, until: int)
    requires RoomUntil(cfg, s, until) && s.clock <= until
    ensures PrunedNow(cfg, s) == s.key
  {
    assert PrunedNow(cfg, s).members == s.key.members;
  }

  lemma RefillStep(cfg: Config, n: nat, clock: int, stamps: set<int>)
    requires RoomUntil(cfg, Refilled(cfg, n, clock, stamps), clock)
    ensures Completed(cfg, Refilled(cfg, n, clock, stamps))
         == Refilled(cfg, n, clock + 1, stamps + {clock}).(clock := clock)
  {
    var s := Refilled(cfg, n, clock, stamps);
    NothingToPrune(cfg, s, clock);
    assert clock in Add(s.key, clock).members;
    assert s.admitted + {clock} == {0, cfg.window - 1} + (stamps + {clock});
  }

  lemma RefillMore(cfg: Config, n: nat, patience: int, reached: State -> bool, clock: int, stamps: set<int>)
    requires cfg.Sane() && n > 0 && patience >= 0 && Closed(cfg, n, patience, reached)
    requires RoomUntil(cfg, Refilled(cfg, n, clock, stamps), clock) && reached(Refilled(cfg, n, clock, stamps))
    ensures reached(Refilled(cfg, n, clock + 1, stamps + {clock}))
  {
    NothingToPrune(cfg, Refilled(cfg, n, clock, stamps), clock);
    CompleteReached(cfg, n, patience, reached, Refilled(cfg, n, clock, stamps));
    RefillStep(cfg, n, clock, stamps);
    var s' := Refilled(cfg, n, clock + 1, stamps + {clock});
    assert clock in s'.key.members;
    WaitReached(cfg, n, patience, reached, s'.(clock := clock), clock + 1);
    assert s'.(clock := clock).(clock := clock + 1) == s';
  }

  lemma RefillStarted(cfg: Config, n: nat, patience: int, reached: State -> bool)
    requires cfg.Sane() && n > 0 && Closed(cfg, n, patience, reached) && reached(Lost(cfg, n))
    ensures reached(Refilled(cfg, n, cfg.window + cfg.slack, {}))
  {
    StepReached(cfg, n, patience, reached, Lost(cfg, n), Renew(0));
    assert Lost(cfg, n).callers[0 := Idle] == Idlers(n);
    assert {0, cfg.window - 1} + {} == {0, cfg.window - 1};
  }

  lemma {:induction false} RefilledReached(cfg: Config, n: nat, patience: int, reached: State -> bool, k: nat)
    returns (stamps: set<int>)
    requires cfg.Sane() && cfg.limit >= 2 && n > 0 && cfg.slack < patience && Closed(cfg, n, patience, reached)
    requires k < cfg.limit <= cfg.window
    ensures |stamps| == k && forall m :: m in stamps ==> 0 <= m - cfg.window - cfg.slack < k
    ensures reached(Refilled(cfg, n, cfg.window + cfg.slack + k, stamps))
  {
    if k == 0 {
      LostReached(cfg, n, patience, reached);
      RefillStarted(cfg, n, patience, reached);
      stamps := {};
    } else {
      var earlier := RefilledReached(cfg, n, patience, reached, k - 1);
      var clock := cfg.window + cfg.slack + k - 1;
      RefillMore(cfg, n, patience, reached, clock, earlier);
      stamps := earlier + {clock};
    }
  }

  /**
    The first j callers found room, `gap` microseconds apart from `first` on; the first k of
    them have inserted.
   */
  function Staggered(n: nat, j: nat, k: nat, first: int, gap: int): (callers: seq<Phase>)
    ensures |callers| == n
    ensures forall c :: 0 <= c < n ==>
              callers[c] == if c < k then Added(first + gap * c) else if c < j then Passed(first + gap * c) else Idle
  {
    seq(n, c => if c < k then Added(first + gap * c) else if c < j then Passed(first + gap * c) else Idle)
  }

  function StaggeredFrom(s: State, j: nat, gap: nat): State {
    s.(clock := s.clock + gap * j, callers := Staggered(|s.callers|, j, 0, s.clock, gap))
  }

  lemma StaggeredOneMore(s: State, j: nat, gap: nat)
    requires j < |s.callers|
    ensures StaggeredFrom(s, j + 1, gap)
         == s.(clock := s.clock + gap * j + gap,
               callers := Staggered(|s.callers|, j, 0, s.clock, gap)[j := Passed(s.clock + gap * j)])
  {
    assert gap * (j + 1) == gap * j + gap;
    assert Staggered(|s.callers|, j + 1, 0, s.clock, gap)
        == Staggered(|s.callers|, j, 0, s.clock, gap)[j := Passed(s.clock + gap * j)];
  }

  lemma StaggerMore(cfg: Config, n: nat, patience: int, reached: State -> bool, s: State, j: nat, gap: nat)
    requires Closed(cfg, n, patience, reached) && |s.callers| == n && j < n
    requires RoomUntil(cfg, s, s.clock + gap * j + gap) && reached(StaggeredFrom(s, j, gap))
    ensures reached(StaggeredFrom(s, j + 1, gap))
  {
    var before := StaggeredFrom(s, j, gap);
    NothingToPrune(cfg, before, before.clock + gap);
    AskReached(cfg, n, patience, reached, before, j);
    var asked := AskedBy(cfg, before, j);
    forall c | 0 <= c < n ensures !asked.callers[c].Added? {}
    WaitReached(cfg, n, patience, reached, asked, before.clock + gap);
    StaggeredOneMore(s, j, gap);
  }

  lemma StaggeredNone(s: State, gap: nat)
    requires s.callers == Idlers(|s.callers|)
    ensures StaggeredFrom(s, 0, gap) == s
  {
    assert Staggered(|s.callers|, 0, 0, s.clock, gap) == s.callers;
  }

  /** One after another the first j callers find room. */
  lemma {:induction false} StaggeredReached(cfg: Config, n: nat, patience: int, reached: State -> bool, s: State,
                                            j: nat, gap: nat)
    requires Closed(cfg, n, patience, reached) && reached(s)
    requires s.callers == Idlers(n) && j <= n && RoomUntil(cfg, s, s.clock + gap * j)
    ensures reached(StaggeredFrom(s, j, gap))
  {
    if j == 0 {
      StaggeredNone(s, gap);
    } else {
      assert gap * j == gap * (j - 1) + gap;
      StaggeredReached(cfg, n, patience, reached, s, j - 1, gap);
      StaggerMore(cfg, n, patience, reached, s, j - 1, gap);
    }
  }

  lemma {:induction false} AllPassed(n: nat, first: int, gap: int)
    ensures NumPassed(Staggered(n, n, 0, first, gap)) == n
  {
    if n > 0 {
      assert Staggered(n, n, 0, first, gap)[..n - 1] == Staggered(n - 1, n - 1, 0, first, gap);
      AllPassed(n - 1, first, gap);
    }
  }

  lemma AllCounted(cfg: Config, s: State, lost: int, refill: set<int>, last: set<int>)
    requires lost in s.admitted && refill <= s.admitted && last <= s.admitted
    requires s.clock - cfg.window < lost && forall m :: m in refill ==> lost < m
    requires forall l, m :: l in last && m in refill ==> lost < l && m < l
    requires forall l :: l in last ==> lost < l
    ensures |InWindow(cfg, s)| >= 1 + |refill| + |last|
  {
    var all := {lost} + refill + last;
    forall m | m in all ensures m in InWindow(cfg, s) {}
    SubsetSize(all, InWindow(cfg, s));
    assert |{lost} + refill| == 1 + |refill|;
    assert ({lost} + refill) !! last;
  }

  /** Too many in the window, callers past the count included. */
  ghost predicate Overfull(cfg: Config, callers: nat, patience: int) {
    exists s :: Reaches(cfg, callers, patience, s)
             && |InWindow(cfg, s)| + NumPassed(s.callers) > cfg.limit - 1 + callers
  }

  /** All but one stamp of the limit are stored, one more is lost, and nobody is calling. */
  ghost predicate Primed(cfg: Config, n: nat, s: State, refill: set<int>) {
    && s.callers == Idlers(n) && s.clock == cfg.window + cfg.slack + cfg.limit - 1 && |refill| == cfg.limit - 1
    && s.key.members == refill && cfg.window - 1 in s.admitted && refill <= s.admitted
    && (forall m :: m in refill ==> cfg.window + cfg.slack <= m < s.clock)
    && RoomUntil(cfg, s, s.clock)
    && (s.key.deadline.Some? ==> s.key.deadline.value == s.clock - 1 + cfg.window + cfg.slack)
  }

  lemma PrimedReached(cfg: Config, n: nat, patience: int, reached: State -> bool) returns (s: State, refill: set<int>)
    requires cfg.Sane() && n > 0 && cfg.slack + cfg.limit < cfg.window && Closed(cfg, n, patience, reached)
    requires cfg.limit >= 2 && cfg.slack < patience
    ensures reached(s) && Primed(cfg, n, s, refill)
  {
    refill := RefilledReached(cfg, n, patience, reached, cfg.limit - 1);
    s := Refilled(cfg, n, cfg.window + cfg.slack + cfg.limit - 1, refill);
  }

  lemma PassingReached(cfg: Config, n: nat, patience: int, reached: State -> bool, s: State, refill: set<int>)
    requires cfg.Sane() && cfg.slack + cfg.limit < cfg.window && Closed(cfg, n, patience, reached)
    requires reached(s) && Primed(cfg, n, s, refill)
    ensures reached(StaggeredFrom(s, n, 0))
    ensures |InWindow(cfg, StaggeredFrom(s, n, 0))| + NumPassed(StaggeredFrom(s, n, 0).callers) >= cfg.limit + n
  {
    StaggeredReached(cfg, n, patience, reached, s, n, 0);
    AllPassed(n, s.clock, 0);
    AllCounted(cfg, StaggeredFrom(s, n, 0), cfg.window - 1, refill, {});
  }

  lemma CapBroken(cfg: Config, callers: nat, patience: int)
    requires cfg.Sane() && callers > 0 && cfg.slack + cfg.limit < cfg.window
    requires cfg.limit >= 2 && cfg.slack < patience
    ensures Overfull(cfg, callers, patience)
  {
    var reached := s => Reaches(cfg, callers, patience, s);
    ReachesClosed(cfg, callers, patience);
    var s, refill := PrimedReached(cfg, callers, patience, reached);
    PassingReached(cfg, callers, patience, reached, s, refill);
    assert Reaches(cfg, callers, patience, StaggeredFrom(s, callers, 0));
  }

  /**
    Some run of the callers exceeds the cap, those past the count being counted, exactly when
    one can lose a stamp: the limit is at least 2 and calls may take longer than the slack.
   */
  lemma CapIsExact(cfg: Config, callers: nat, patience: int)
    requires cfg.Sane() && callers > 0 && cfg.slack + cfg.limit < cfg.window
    ensures Overfull(cfg, callers, patience) <==> cfg.limit >= 2 && cfg.slack < patience
  {
    if cfg.limit >= 2 && cfg.slack < patience {
      CapBroken(cfg, callers, patience);
    } else if Overfull(cfg, callers, patience) {
      var s :| Reaches(cfg, callers, patience, s)
            && |InWindow(cfg, s)| + NumPassed(s.callers) > cfg.limit - 1 + callers;
      var events :| Exec(cfg, callers, patience, events) == Some(s);
      ConcurrentCap(cfg, callers, patience, events);
    }
  }

  // ---- Distinct stamps alone ------------------------------------------------------------

  /** The first k of the callers, a microsecond apart, have inserted the stamps. */
  function WithStamps(s: State, first: int, k: nat, stamps: set<int>): State {
    s.(key := Key(s.key.members + stamps, s.key.deadline),
       callers := Staggered(|s.callers|, |s.callers|, k, first, 1), admitted := s.admitted + stamps)
  }

  lemma InsertMore(cfg: Config, n: nat, patience: int, reached: State -> bool, s: State, first: int, k: nat,
                   stamps: set<int>)
    requires Closed(cfg, n, patience, reached) && reached(WithStamps(s, first, k, stamps))
    requires k < |s.callers| && s.clock <= first + k + patience
    ensures reached(WithStamps(s, first, k + 1, stamps + {first + k}))
  {
    var before, after := WithStamps(s, first, k, stamps), WithStamps(s, first, k + 1, stamps + {first + k});
    StepReached(cfg, n, patience, reached, before, Insert(k));
    assert before.callers[k := Added(first + k)] == after.callers;
    assert (s.key.members + stamps) + {first + k} == after.key.members;
    assert (s.admitted + stamps) + {first + k} == after.admitted;
  }

  lemma WithoutStamps(s: State, first: int)
    requires s.callers == Staggered(|s.callers|, |s.callers|, 0, first, 1)
    ensures WithStamps(s, first, 0, {}) == s
  {
    assert s.key.members + {} == s.key.members && s.admitted + {} == s.admitted;
  }

  lemma {:induction false} InsertedReached(cfg: Config, n: nat, patience: int, reached: State -> bool, s: State,
                                           first: int, k: nat) returns (stamps: set<int>)
    requires Closed(cfg, n, patience, reached) && reached(WithStamps(s, first, 0, {}))
    requires k <= |s.callers| && s.clock <= first + patience
    ensures |stamps| == k && forall m :: m in stamps ==> first <= m < first + k
    ensures reached(WithStamps(s, first, k, stamps))
  {
    stamps := {};
    if k > 0 {
      var earlier := InsertedReached(cfg, n, patience, reached, s, first, k - 1);
      stamps := earlier + {first + k - 1};
      InsertMore(cfg, n, patience, reached, s, first, k - 1, earlier);
    }
  }

  /** Too many distinct stamps in the window, no caller being counted ahead of its insertion. */
  ghost predicate Overadmitted(cfg: Config, callers: nat, patience: int) {
    exists s :: Reaches(cfg, callers, patience, s) && |InWindow(cfg, s)| > cfg.limit - 1 + callers
  }

  lemma ReadyReached(cfg: Config, n: nat, patience: int, reached: State -> bool, s: State, refill: set<int>)
    requires cfg.Sane() && cfg.slack + cfg.limit + n < cfg.window && Closed(cfg, n, patience, reached)
    requires reached(s) && Primed(cfg, n, s, refill)
    ensures reached(WithStamps(StaggeredFrom(s, n, 1), s.clock, 0, {}))
  {
    assert RoomUntil(cfg, s, s.clock + 1 * n);
    StaggeredReached(cfg, n, patience, reached, s, n, 1);
    WithoutStamps(StaggeredFrom(s, n, 1), s.clock);
  }

  lemma AdmittedReached(cfg: Config, n: nat, patience: int, reached: State -> bool, s: State, refill: set<int>)
    returns (last: set<int>)
    requires cfg.Sane() && cfg.slack + cfg.limit + n < cfg.window && Closed(cfg, n, patience, reached)
    requires reached(s) && Primed(cfg, n, s, refill) && n <= patience
    ensures reached(WithStamps(StaggeredFrom(s, n, 1), s.clock, n, last))
    ensures |InWindow(cfg, WithStamps(StaggeredFrom(s, n, 1), s.clock, n, last))| >= cfg.limit + n
  {
    var ready := StaggeredFrom(s, n, 1);
    ReadyReached(cfg, n, patience, reached, s, refill);
    last := InsertedReached(cfg, n, patience, reached, ready, s.clock, n);
    AllCounted(cfg, WithStamps(ready, s.clock, n, last), cfg.window - 1, refill, last);
  }

  lemma DistinctCapBroken(cfg: Config, callers: nat, patience: int)
    requires cfg.Sane() && callers > 0 && cfg.slack + cfg.limit + callers < cfg.window
    requires cfg.limit >= 2 && cfg.slack < patience && callers <= patience
    ensures Overadmitted(cfg, callers, patience)
  {
    var reached := s => Reaches(cfg, callers, patience, s);
    ReachesClosed(cfg, callers, patience);
    var s, refill := PrimedReached(cfg, callers, patience, reached);
    var last := AdmittedReached(cfg, callers, patience, reached, s, refill);
    assert Reaches(cfg, callers, patience, WithStamps(StaggeredFrom(s, callers, 1), s.clock, callers, last));
  }

  /**
    For no more callers than microseconds they may be late, some run admits more distinct stamps
    than limit - 1 + callers into the window exactly when it can lose one.
   */
  lemma DistinctCapIsExact(cfg: Config, callers: nat, patience: int)
    requires cfg.Sane() && callers > 0 && cfg.slack + cfg.limit + callers < cfg.window
    requires callers <= cfg.slack + 1 || callers <= patience
    ensures Overadmitted(cfg, callers, patience) <==> cfg.limit >= 2 && cfg.slack < patience
  {
    if cfg.limit >= 2 && cfg.slack < patience {
      DistinctCapBroken(cfg, callers, patience);
    } else if Overadmitted(cfg, callers, patience) {
      var s :| Reaches(cfg, callers, patience, s) && |InWindow(cfg, s)| > cfg.limit - 1 + callers;
      var events :| Exec(cfg, callers, patience, events) == Some(s);
      ConcurrentCap(cfg, callers, patience, events);
    }
  }

  /** Every stamp was read by now. */
  ghost predicate ReadByNow(s: State) {
    && (forall c :: 0 <= c < |s.callers| && !s.callers[c].Idle? ==> s.callers[c].stamp <= s.clock)
    && (forall m :: m in s.admitted ==> m <= s.clock)
  }

  lemma StepReadByNow(cfg: Config, s: State, patience: int, e: Event)
    requires ReadByNow(s) && Enabled(s, patience, e)
    ensures ReadByNow(Step(cfg, s, patience, e))
  {}

  lemma {:induction false} ExecReadByNow(cfg: Config, callers: nat, patience: int, events: seq<Event>)
    ensures var r := Exec(cfg, callers, patience, events);
            r.Some? ==> ReadByNow(r.value)
  {
    if events != [] {
      var n := |events| - 1;
      ExecReadByNow(cfg, callers, patience, events[..n]);
      var before := Exec(cfg, callers, patience, events[..n]);
      if before.Some? && Enabled(before.value, patience, events[n]) {
        StepReadByNow(cfg, before.value, patience, events[n]);
      }
    }
  }

  /** With as many callers as the window has microseconds none can: there are not enough stamps. */
  lemma ManyCallersCannot(cfg: Config, callers: nat, patience: int)
    requires cfg.Sane() && cfg.window <= callers
    ensures !Overadmitted(cfg, callers, patience)
  {
    forall s | Reaches(cfg, callers, patience, s) ensures |InWindow(cfg, s)| <= cfg.limit - 1 + callers {
      var events :| Exec(cfg, callers, patience, events) == Some(s);
      ExecReadByNow(cfg, callers, patience, events);
      SubsetSize(InWindow(cfg, s), Interval(s.clock - cfg.window + 1, s.clock + 1));
    }
  }
}
