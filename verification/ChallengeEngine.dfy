/**
  The challenge engine (internal/service/challenge/engine.go): challenges are generated with
  a stored answer, answered at most once, and swept when expired. Random draws and fresh IDs
  are arguments; every draw is reduced into the range the source asks of rand.Intn.
 */
module ChallengeEngine {
  import opened Prelude
  import opened Tokens

  datatype ChallengeType = Slider | Click | Puzzle | Invisible | Unknown(name: string)

  datatype Expected = SliderAnswer(targetX: int, tolerance: int) | ClickAnswer(targetIDs: seq<string>) | NoAnswer

  datatype Record = Record(challengeType: ChallengeType, data: Expected, expiresAt: int)

  /** What a client may submit, as the JSON decoder delivers it. */
  datatype Answer =
    | Number(x: real)
    | JsonNumber(parsed: Option<real>)
    | Object(field: Option<Field>)
    | List(items: seq<Item>)
    | Strings(strings: seq<string>)
    | Unsupported
  datatype Field = NumberField(x: real) | OtherField
  datatype Item = StringItem(s: string) | OtherItem

  datatype ClickTarget = ClickTarget(id: string, labelText: string, x: int, y: int)

  datatype Config = Config(challengeID: string, challengeType: ChallengeType, token: string, x: int, y: int,
                           targets: seq<ClickTarget>, prompt: string, expiresAt: int)

  const LIFETIME: int := 5 * MINUTE

  function Intn(draw: nat, n: nat): (r: nat)
    requires n > 0
    ensures r < n
  {
    draw % n
  }

  // ---- What counts as a correct answer -------------------------------------------

  /** The position a slider answer stands for; an object without "x" stands for zero. */
  function SubmittedX(answer: Answer): Option<real> {
    match answer
    case Number(x) => Some(x)
    case JsonNumber(parsed) => parsed
    case Object(None) => Some(0.0)
    case Object(Some(NumberField(x))) => Some(x)
    case _ => None
  }

  predicate SliderAccepts(targetX: int, tolerance: int, answer: Answer) {
    && SubmittedX(answer).Some?
    && targetX as real - tolerance as real <= SubmittedX(answer).value <= targetX as real + tolerance as real
  }

  function StringItems(items: seq<Item>): seq<string> {
    if items == [] then []
    else
      var rest := StringItems(items[..|items| - 1]);
      match items[|items| - 1]
      case StringItem(s) => rest + [s]
      case OtherItem => rest
  }

  function SubmittedIDs(answer: Answer): Option<seq<string>> {
    match answer
    case List(items) => Some(StringItems(items))
    case Strings(strings) => Some(strings)
    case _ => None
  }

  predicate ClickAccepts(targetIDs: seq<string>, answer: Answer) {
    && SubmittedIDs(answer).Some?
    && |SubmittedIDs(answer).value| == |targetIDs|
    && forall i :: 0 <= i < |SubmittedIDs(answer).value| ==> SubmittedIDs(answer).value[i] in targetIDs
  }

  predicate Accepts(rec: Record, answer: Answer) {
    match rec.challengeType
    case Slider => rec.data.SliderAnswer? && SliderAccepts(rec.data.targetX, rec.data.tolerance, answer)
    case Puzzle => rec.data.SliderAnswer? && SliderAccepts(rec.data.targetX, rec.data.tolerance, answer)
    case Click => rec.data.ClickAnswer? && ClickAccepts(rec.data.targetIDs, answer)
    case Invisible => true
    case Unknown(_) => false
  }

  predicate Passes(answers: map<string, Record>, id: string, answer: Answer, now: int) {
    id in answers && now <= answers[id].expiresAt && Accepts(answers[id], answer)
  }

  // ---- What the generators store ----------------------------------------------------

  /** Every record the engine ever stores, whatever type was asked for. */
  predicate Generated(rec: Record, now: int) {
    && rec.expiresAt == now + LIFETIME
    && match rec.challengeType
       case Slider => rec.data.SliderAnswer? && 60 <= rec.data.targetX <= 249 && rec.data.tolerance == 5
       case Puzzle => rec.data.SliderAnswer? && 50 <= rec.data.targetX <= 269 && rec.data.tolerance == 4
       case Click => rec.data.ClickAnswer? && |rec.data.targetIDs| == 1
       case Invisible => rec.data == NoAnswer
       case Unknown(_) => false
  }

  const ALL_LABELS: seq<string> :=
    ["cat", "dog", "car", "tree", "house", "bird", "fish", "star", "moon", "sun"]

  /** The shuffled labels: all ten, each once, in some order. */
  ghost predicate Shuffled(labels: seq<string>) {
    && |labels| == |ALL_LABELS|
    && (forall i :: 0 <= i < |labels| ==> labels[i] in ALL_LABELS)
    && (forall i, j :: 0 <= i < j < |labels| ==> labels[i] != labels[j])
  }

  /** The random choices of one generation. */
  datatype Draws = Draws(x: nat, y: nat, labels: seq<string>, targetIDs: seq<string>, positions: seq<(nat, nat)>)

  ghost predicate DrawsOk(d: Draws) {
    Shuffled(d.labels) && |d.targetIDs| == 6 && |d.positions| == 6
  }

  lemma SmallModulo(i: nat, n: nat)
    requires i < n
    ensures i % n == i
  {}

  /** The loop of generateClick; its rescue of a challenge without a match is never reached. */
  method ChooseTargets(allLabels: seq<string>, tids: seq<string>, positions: seq<(nat, nat)>)
    returns (targets: seq<ClickTarget>, correctIDs: seq<string>)
    requires |allLabels| == 10 && |tids| == 6 && |positions| == 6
    requires forall i, j :: 0 <= i < j < |allLabels| ==> allLabels[i] != allLabels[j]
    ensures |targets| == 6 && correctIDs == [tids[0]] && targets[0].id == tids[0]
    ensures forall i :: 0 <= i < 6 ==> (targets[i].labelText == allLabels[0] <==> i == 0)
  {
    var numTargets, numCorrect := 6, 3;
    if numTargets > |allLabels| {
      numTargets := |allLabels|;
    }
    var promptLabel := allLabels[0];
    targets, correctIDs := [], [];
    for i := 0 to numTargets
      invariant |targets| == i
      invariant i > 0 ==> targets[0].id == tids[0]
      invariant forall j :: 0 <= j < i ==> (targets[j].labelText == promptLabel <==> j == 0)
      invariant correctIDs == if i == 0 then [] else [tids[0]]
    {
      SmallModulo(i, |allLabels|);
      var target := ClickTarget(tids[i], allLabels[i % |allLabels|],
                                30 + Intn(positions[i].0, 260), 20 + Intn(positions[i].1, 130));
      targets := targets + [target];
      if target.labelText == promptLabel && |correctIDs| < numCorrect {
        correctIDs := correctIDs + [target.id];
      }
    }
    if |correctIDs| == 0 {
      assert false;
    }
  }

  class Engine {
    const codec: Codec
    var answers: map<string, Record>

    constructor (codec: Codec)
      ensures this.codec == codec && answers == map[]
    {
      this.codec := codec;
      answers := map[];
    }

    /** Stores one fresh record under the new ID; types it does not know become sliders. */
    method GenerateChallenge(challengeType: ChallengeType, id: string, now: int, signedAt: int, d: Draws)
      returns (config: Config)
      requires DrawsOk(d)
      modifies this
      ensures id in answers && answers == old(answers)[id := answers[id]] && Generated(answers[id], now)
      ensures answers[id].challengeType == if challengeType.Unknown? then Slider else challengeType
      ensures config.challengeID == id && config.challengeType == answers[id].challengeType
      ensures config.expiresAt == answers[id].expiresAt
      ensures config.token == if challengeType.Invisible? then Sign(codec, id, signedAt) else ""
      ensures answers[id].challengeType.Slider? ==> answers[id].data == SliderAnswer(60 + d.x % 190, 5)
      ensures challengeType.Puzzle? ==>
                answers[id].data == SliderAnswer(50 + d.x % 220, 4) && config.x == answers[id].data.targetX
      ensures challengeType.Click? ==> SolvedBy(config, answers[id].data.targetIDs)
    {
      var expiresAt := now + 5 * MINUTE;
      match challengeType {
        case Click => config := GenerateClick(id, expiresAt, d);
        case Puzzle => config := GeneratePuzzle(id, expiresAt, d);
        case Invisible => config := GenerateInvisible(id, expiresAt, signedAt);
        case _ => config := GenerateSlider(id, expiresAt, d);
      }
    }

    method GenerateSlider(id: string, expiresAt: int, d: Draws) returns (config: Config)
      modifies this
      ensures answers == old(answers)[id := Record(Slider, SliderAnswer(60 + Intn(d.x, 190), 5), expiresAt)]
      ensures config == Config(id, Slider, "", 0, 20 + Intn(d.y, 70), [], "", expiresAt)
    {
      var bgWidth, bgHeight, sliderW, sliderH := 320, 160, 50, 50;
      var targetX := 60 + Intn(d.x, bgWidth - sliderW - 80);
      var targetY := 20 + Intn(d.y, bgHeight - sliderH - 40);
      answers := answers[id := Record(Slider, SliderAnswer(targetX, 5), expiresAt)];
      return Config(id, Slider, "", 0, targetY, [], "", expiresAt);
    }

    method GeneratePuzzle(id: string, expiresAt: int, d: Draws) returns (config: Config)
      modifies this
      ensures answers == old(answers)[id := Record(Puzzle, SliderAnswer(50 + Intn(d.x, 220), 4), expiresAt)]
      ensures config == Config(id, Puzzle, "", 50 + Intn(d.x, 220), 30 + Intn(d.y, 100), [], "", expiresAt)
    {
      var targetX := 50 + Intn(d.x, 220);
      var targetY := 30 + Intn(d.y, 100);
      answers := answers[id := Record(Puzzle, SliderAnswer(targetX, 4), expiresAt)];
      return Config(id, Puzzle, "", targetX, targetY, [], "", expiresAt);
    }

    method GenerateInvisible(id: string, expiresAt: int, signedAt: int) returns (config: Config)
      modifies this
      ensures answers == old(answers)[id := Record(Invisible, NoAnswer, expiresAt)]
      ensures config == Config(id, Invisible, Sign(codec, id, signedAt), 0, 0, [], "", expiresAt)
    {
      var token := Sign(codec, id, signedAt);
      answers := answers[id := Record(Invisible, NoAnswer, expiresAt)];
      return Config(id, Invisible, token, 0, 0, [], "", expiresAt);
    }

    /** Six targets carry distinct labels, so exactly one matches the prompt: the first. */
    method GenerateClick(id: string, expiresAt: int, d: Draws) returns (config: Config)
      requires DrawsOk(d)
      modifies this
      ensures answers == old(answers)[id := Record(Click, ClickAnswer([d.targetIDs[0]]), expiresAt)]
      ensures config.challengeID == id && config.challengeType == Click && config.token == ""
      ensures config.expiresAt == expiresAt && SolvedBy(config, [d.targetIDs[0]])
    {
      var targets, correctIDs := ChooseTargets(d.labels, d.targetIDs, d.positions);
      answers := answers[id := Record(Click, ClickAnswer(correctIDs), expiresAt)];
      config := Config(id, Click, "", 0, 0, targets, d.labels[0], expiresAt);
    }

    /** The answer is consumed whether or not it is right or in time. */
    method ValidateChallenge(id: string, answer: Answer, now: int, signedAt: int) returns (valid: bool, token: string)
      modifies this
      ensures answers == old(answers) - {id}
      ensures valid <==> Passes(old(answers), id, answer, now)
      ensures valid <==> id in old(answers) && now <= old(answers)[id].expiresAt && Accepts(old(answers)[id], answer)
      ensures token == if valid then Sign(codec, id, signedAt) else ""
    {
      if id !in answers {
        return false, "";
      }
      var rec := answers[id];
      answers := answers - {id};
      if now > rec.expiresAt {
        return false, "";
      }
      match rec.challengeType {
        case Slider => valid := ValidateSlider(rec, answer);
        case Puzzle => valid := ValidateSlider(rec, answer);
        case Click => valid := ValidateClick(rec, answer);
        case Invisible => valid := true;
        case Unknown(_) => valid := false;
      }
      token := if valid then Sign(codec, id, signedAt) else "";
    }

    /** One sweep over the map, entry by entry. */
    method CleanExpired(now: int)
      modifies this
      ensures answers == Cleaned(old(answers), now)
      ensures forall id :: id in answers <==> id in old(answers) && now <= old(answers)[id].expiresAt
    {
      ghost var was := answers;
      var todo := answers.Keys;
      while todo != {}
        invariant todo <= answers.Keys <= was.Keys
        invariant forall id :: id in was ==> (id in answers <==> id in todo || now <= was[id].expiresAt)
        invariant forall id :: id in answers ==> answers[id] == was[id]
        decreases |todo|
      {
        var id :| id in todo;
        if now > answers[id].expiresAt {
          answers := answers - {id};
        }
        todo := todo - {id};
      }
    }
  }

  method ValidateSlider(rec: Record, answer: Answer) returns (valid: bool)
    ensures valid <==> rec.data.SliderAnswer? && SliderAccepts(rec.data.targetX, rec.data.tolerance, answer)
  {
    if !rec.data.SliderAnswer? {
      return false;
    }
    var submittedX := 0.0;
    match answer {
      case Number(x) => submittedX := x;
      case JsonNumber(parsed) =>
        if parsed.None? { return false; }
        submittedX := parsed.value;
      case Object(field) =>
        if field.Some? {
          if !field.value.NumberField? { return false; }
          submittedX := field.value.x;
        }
      case _ => return false;
    }
    var diff := submittedX - rec.data.targetX as real;
    if diff < 0.0 { diff := -diff; }
    return diff <= rec.data.tolerance as real;
  }

  method ValidateClick(rec: Record, answer: Answer) returns (valid: bool)
    ensures valid <==> rec.data.ClickAnswer? && ClickAccepts(rec.data.targetIDs, answer)
  {
    if !rec.data.ClickAnswer? {
      return false;
    }
    var submittedIDs: seq<string> := [];
    match answer {
      case List(items) =>
        var k := 0;
        while k < |items|
          invariant 0 <= k <= |items| && submittedIDs == StringItems(items[..k])
        {
          assert items[..k + 1][..k] == items[..k];
          if items[k].StringItem? { submittedIDs := submittedIDs + [items[k].s]; }
          k := k + 1;
        }
        assert items[..k] == items;
      case Strings(strings) => submittedIDs := strings;
      case _ => return false;
    }
    if |submittedIDs| != |rec.data.targetIDs| {
      return false;
    }
    var i := 0;
    while i < |submittedIDs|
      invariant 0 <= i <= |submittedIDs|
      invariant forall j :: 0 <= j < i ==> submittedIDs[j] in rec.data.targetIDs
    {
      if submittedIDs[i] !in rec.data.targetIDs { return false; }
      i := i + 1;
    }
    return true;
  }

  /** Exactly one target, the first, carries the prompt's label, and it is the answer. */
  ghost predicate SolvedBy(config: Config, targetIDs: seq<string>) {
    && |config.targets| == 6 && targetIDs == [config.targets[0].id]
    && forall i :: 0 <= i < 6 ==> (config.targets[i].labelText == config.prompt <==> i == 0)
  }

  function Cleaned(answers: map<string, Record>, now: int): map<string, Record> {
    map id | id in answers && now <= answers[id].expiresAt :: answers[id]
  }

  // ---- What answers the stored records admit ---------------------------------------------

  /**
    A slider or puzzle takes a number, bare, as a JSON number or as an object's "x", if and only
    if it lies within 5 pixels of the stored position, 4 for a puzzle, on either side; and
    nothing else.
   */
  lemma PositionsAccepted(rec: Record, now: int, answer: Answer, x: real)
    requires Generated(rec, now) && (rec.challengeType.Slider? || rec.challengeType.Puzzle?)
    ensures var off := x - rec.data.targetX as real;
            var near := if rec.challengeType.Slider? then -5.0 <= off <= 5.0 else -4.0 <= off <= 4.0;
            && (Accepts(rec, Number(x)) <==> near) && (Accepts(rec, JsonNumber(Some(x))) <==> near)
            && (Accepts(rec, Object(Some(NumberField(x)))) <==> near)
    ensures answer.JsonNumber? && answer.parsed.None? ==> !Accepts(rec, answer)
    ensures answer.Object? && (answer.field.None? || answer.field.value.OtherField?) ==> !Accepts(rec, answer)
    ensures answer.List? || answer.Strings? || answer.Unsupported? ==> !Accepts(rec, answer)
  {}

  lemma {:induction false} StringsOf(items: seq<Item>)
    ensures forall k :: 0 <= k < |StringItems(items)| ==> StringItem(StringItems(items)[k]) in items
    ensures (forall i :: 0 <= i < |items| ==> items[i].OtherItem?) <==> StringItems(items) == []
  {
    if items != [] {
      var n := |items| - 1;
      StringsOf(items[..n]);
      assert forall i :: 0 <= i < n ==> items[..n][i] == items[i];
    }
  }

  /** The only string among the items, wherever it stands. */
  ghost predicate OnlyString(items: seq<Item>, s: string, i: nat) {
    i < |items| && items[i] == StringItem(s) && forall j :: 0 <= j < |items| && j != i ==> items[j].OtherItem?
  }

  lemma {:induction false} OnlyStringIsAll(items: seq<Item>, s: string, i: nat)
    requires OnlyString(items, s, i)
    ensures StringItems(items) == [s]
  {
    var n := |items| - 1;
    if i < n {
      assert OnlyString(items[..n], s, i);
      OnlyStringIsAll(items[..n], s, i);
    } else {
      StringsOf(items[..n]);
      assert forall j :: 0 <= j < n ==> items[..n][j].OtherItem?;
    }
  }

  lemma {:induction false} AllIsOnlyString(items: seq<Item>, s: string) returns (i: nat)
    requires StringItems(items) == [s]
    ensures OnlyString(items, s, i)
  {
    var n := |items| - 1;
    var before := items[..n];
    if items[n].OtherItem? {
      i := AllIsOnlyString(before, s);
    } else {
      i := n;
      assert StringItems(items)[|StringItems(before)|] == items[n].s;
      assert StringItems(before) == [];
      StringsOf(before);
      assert forall j :: 0 <= j < n ==> items[j] == before[j];
    }
  }

  lemma OneString(items: seq<Item>, s: string)
    ensures StringItems(items) == [s] <==> exists i: nat :: OnlyString(items, s, i)
  {
    if i: nat :| OnlyString(items, s, i) { OnlyStringIsAll(items, s, i); }
    if StringItems(items) == [s] { var i := AllIsOnlyString(items, s); }
  }

  /**
    A click challenge takes the one right ID, as a list of strings or among other things in a
    list that holds no second string; and nothing else.
   */
  lemma IDsAccepted(rec: Record, now: int, answer: Answer)
    requires Generated(rec, now) && rec.challengeType.Click?
    ensures answer.Strings? ==> (Accepts(rec, answer) <==> answer.strings == [rec.data.targetIDs[0]])
    ensures answer.List? ==>
              (Accepts(rec, answer) <==> exists i: nat :: OnlyString(answer.items, rec.data.targetIDs[0], i))
    ensures !answer.Strings? && !answer.List? ==> !Accepts(rec, answer)
  {
    ClickHasOneSolution(rec, now, answer);
    if answer.List? { OneString(answer.items, rec.data.targetIDs[0]); }
  }

  /** An object without "x" reads as position zero, which no stored target is near. */
  lemma MissingXNeverPasses(rec: Record, now: int)
    requires Generated(rec, now) && (rec.challengeType.Slider? || rec.challengeType.Puzzle?)
    ensures !Accepts(rec, Object(None))
  {}

  /** A click challenge is solved by one ID alone, entries that are no strings being ignored. */
  lemma ClickHasOneSolution(rec: Record, now: int, answer: Answer)
    requires Generated(rec, now) && rec.challengeType.Click?
    ensures Accepts(rec, answer) <==> SubmittedIDs(answer) == Some([rec.data.targetIDs[0]])
  {
    if Accepts(rec, answer) {
      var ids := SubmittedIDs(answer).value;
      assert ids[0] in rec.data.targetIDs;
      assert ids == [rec.data.targetIDs[0]];
    }
  }

  // ---- Whole runs ----------------------------------------------------------------------------

  datatype Event =
    | Generate(id: string, rec: Record, now: int)
    | Validate(id: string, answer: Answer, now: int)
    | Clean(now: int)

  datatype Verdict = Verdict(id: string, passed: bool, at: int)

  /** `born` remembers when each ID was generated. */
  datatype State = State(answers: map<string, Record>, born: map<string, int>, verdicts: seq<Verdict>)

  function Step(s: State, e: Event): State {
    match e
    case Generate(id, rec, now) => s.(answers := s.answers[id := rec], born := s.born[id := now])
    case Validate(id, answer, now) =>
      s.(answers := s.answers - {id},
         verdicts := s.verdicts + [Verdict(id, Passes(s.answers, id, answer, now), now)])
    case Clean(now) => s.(answers := Cleaned(s.answers, now))
  }

  function Run(events: seq<Event>): State {
    if events == [] then State(map[], map[], []) else Step(Run(events[..|events| - 1]), events[|events| - 1])
  }

  ghost predicate ClockOrder(events: seq<Event>) {
    forall i, j :: 0 <= i < j < |events| ==> events[i].now <= events[j].now
  }

  /** A generation stores what the generators make, under an ID not used before. */
  ghost predicate Fresh(s: State, e: Event) {
    e.Generate? ==> Generated(e.rec, e.now) && e.id !in s.born
  }

  ghost predicate FreshIDs(events: seq<Event>) {
    forall i :: 0 <= i < |events| ==> Fresh(Run(events[..i]), events[i])
  }

  /** A challenge that has passed is gone, and was generated at most five minutes before. */
  ghost predicate OnceAndInTime(s: State) {
    && (forall id :: id in s.answers ==> id in s.born && s.answers[id].expiresAt == s.born[id] + LIFETIME)
    && (forall i :: 0 <= i < |s.verdicts| && s.verdicts[i].passed ==>
          var v := s.verdicts[i];
          v.id !in s.answers && v.id in s.born && v.at <= s.born[v.id] + LIFETIME)
    && (forall i, j :: 0 <= i < j < |s.verdicts| && s.verdicts[i].passed && s.verdicts[j].passed ==>
          s.verdicts[i].id != s.verdicts[j].id)
  }

  lemma StepOnceAndInTime(s: State, e: Event)
    requires OnceAndInTime(s) && Fresh(s, e)
    ensures OnceAndInTime(Step(s, e))
  {}

  lemma {:induction false} RunOnceAndInTime(events: seq<Event>)
    requires FreshIDs(events)
    ensures OnceAndInTime(Run(events))
  {
    if events != [] {
      var n := |events| - 1;
      forall i | 0 <= i < n ensures Fresh(Run(events[..n][..i]), events[..n][i]) {
        assert events[..n][..i] == events[..i];
      }
      RunOnceAndInTime(events[..n]);
      StepOnceAndInTime(Run(events[..n]), events[n]);
    }
  }

  /** Each challenge validates at most once, and only within five minutes of its generation. */
  lemma ValidatesAtMostOnce(events: seq<Event>, i: nat, j: nat)
    requires FreshIDs(events) && i < |Run(events).verdicts| && j < |Run(events).verdicts|
    requires Run(events).verdicts[i].passed
    ensures var s := Run(events);
            var v := s.verdicts;
            && (v[j].passed && v[j].id == v[i].id ==> i == j)
            && v[i].id in s.born && v[i].at <= s.born[v[i].id] + LIFETIME
  {
    RunOnceAndInTime(events);
  }

  // ---- Cleaning is invisible --------------------------------------------------------------------

  function WithoutCleans(events: seq<Event>): seq<Event> {
    if events == [] then []
    else
      var rest := WithoutCleans(events[..|events| - 1]);
      var last := events[|events| - 1];
      if last.Clean? then rest else rest + [last]
  }

  /** No cleaning is left, and a run without any stays as it is. */
  lemma {:induction false} NoCleansStay(events: seq<Event>)
    ensures forall e :: e in WithoutCleans(events) ==> !e.Clean?
    ensures (forall e :: e in events ==> !e.Clean?) ==> WithoutCleans(events) == events
  {
    if events != [] {
      var n := |events| - 1;
      NoCleansStay(events[..n]);
      assert events == events[..n] + [events[n]];
    }
  }

  /** Taking cleanings out of two stretches of a run is taking them out of the whole. */
  lemma {:induction false} CleansSplit(events: seq<Event>, more: seq<Event>)
    ensures WithoutCleans(events + more) == WithoutCleans(events) + WithoutCleans(more)
  {
    if more == [] {
      assert events + more == events;
    } else {
      var n := |more| - 1;
      CleansSplit(events, more[..n]);
      var all := events + more;
      assert all[..|all| - 1] == events + more[..n];
      assert all[|all| - 1] == more[n];
    }
  }

  ghost predicate Simulates(s: State, u: State, clock: int) {
    && s.verdicts == u.verdicts && s.born == u.born
    && (forall id :: id in s.answers ==> id in u.answers && u.answers[id] == s.answers[id])
    && (forall id :: id in u.answers && id !in s.answers ==> u.answers[id].expiresAt < clock)
  }

  lemma StepSimulates(s: State, u: State, e: Event, clock: int)
    requires Simulates(s, u, clock) && clock <= e.now
    ensures Simulates(Step(s, e), if e.Clean? then u else Step(u, e), e.now)
  {}

  lemma {:induction false} RunSimulates(events: seq<Event>, clock: int)
    requires ClockOrder(events) && (events != [] ==> events[|events| - 1].now == clock)
    ensures Simulates(Run(events), Run(WithoutCleans(events)), clock)
  {
    if events != [] {
      var n := |events| - 1;
      var before := if n == 0 then clock else events[n - 1].now;
      RunSimulates(events[..n], before);
      StepSimulates(Run(events[..n]), Run(WithoutCleans(events[..n])), events[n], before);
      if !events[n].Clean? {
        var kept := WithoutCleans(events[..n]);
        assert (kept + [events[n]])[..|kept|] == kept;
      }
    }
  }

  /** Taking CleanExpired calls out of a run, or putting them in anywhere, changes no verdict. */
  lemma CleaningIsInvisible(events: seq<Event>)
    requires ClockOrder(events)
    ensures Run(WithoutCleans(events)).verdicts == Run(events).verdicts
  {
    RunSimulates(events, if events == [] then 0 else events[|events| - 1].now);
  }

  // ---- The first answer decides -------------------------------------------------------------------

  /**
    The first answer to a stored challenge is the verdict: it passes exactly if the record
    accepts it and no more than five minutes have passed since the generation, and later
    answers to it fail.
   */
  lemma FirstAnswerDecides(s: State, id: string, rec: Record, t: int, answer: Answer, now: int,
                           again: Answer, later: int)
    requires Generated(rec, t)
    ensures var s1 := Step(Step(s, Generate(id, rec, t)), Validate(id, answer, now));
            s1.verdicts == s.verdicts + [Verdict(id, now <= t + 300_000_000_000 && Accepts(rec, answer), now)]
            && Step(s1, Validate(id, again, later)).verdicts == s1.verdicts + [Verdict(id, false, later)]
  {}

  /** An invisible challenge accepts whatever is answered. */
  lemma InvisibleAcceptsAll(rec: Record, now: int, answer: Answer)
    requires Generated(rec, now) && rec.challengeType.Invisible?
    ensures Accepts(rec, answer)
  {}
}
