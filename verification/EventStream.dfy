/**
  The event stream (internal/service/events/stream.go): a replay buffer of the latest 100
  events, and per subscriber a channel that holds 64. Publishing is atomic here.
 */
module EventStream {
  import opened Prelude

  datatype Event = Event(id: string, eventType: string, appID: string, timestamp: Option<int>)

  datatype Filter = Filter(eventType: string, appID: string)

  datatype Subscriber = Subscriber(filter: Filter, ch: seq<Event>)

  const BUFFER_SIZE: nat := 100
  const CHANNEL_SIZE: nat := 64

  predicate Matches(event: Event, filter: Filter) {
    && (filter.eventType == "" || event.eventType == filter.eventType)
    && (filter.appID == "" || event.appID == filter.appID)
  }

  // ---- What subscribers are promised -----------------------------------------------------

  function Filtered(events: seq<Event>, filter: Filter): seq<Event> {
    if events == [] then []
    else
      var last := events[|events| - 1];
      Filtered(events[..|events| - 1], filter) + (if Matches(last, filter) then [last] else [])
  }

  function Latest(events: seq<Event>, k: nat): seq<Event> {
    if |events| <= k then events else events[|events| - k..]
  }

  /**
    A subscription as seen from the list of all published events: it starts after `since` of
    them, found its channel full at the positions in `full`, and has read `consumed` events.
   */
  datatype Feed = Feed(since: nat, full: set<nat>, consumed: nat)

  /** Positions of the events a feed has been given, read or not. */
  function Slots(published: seq<Event>, filter: Filter, feed: Feed): (slots: seq<nat>)
    ensures forall k :: 0 <= k < |slots| ==> slots[k] < |published|
  {
    if |published| <= feed.since then []
    else
      var n := |published| - 1;
      Slots(published[..n], filter, feed) + (if Matches(published[n], filter) && n !in feed.full then [n] else [])
  }

  function At(published: seq<Event>, slots: seq<nat>): (events: seq<Event>)
    requires forall k :: 0 <= k < |slots| ==> slots[k] < |published|
    ensures |events| == |slots| && forall k :: 0 <= k < |events| ==> events[k] == published[slots[k]]
  {
    seq(|slots|, k requires 0 <= k < |slots| => published[slots[k]])
  }

  function Given(published: seq<Event>, filter: Filter, feed: Feed): seq<Event> {
    At(published, Slots(published, filter, feed))
  }

  ghost predicate FeedOk(published: seq<Event>, sub: Subscriber, feed: Feed) {
    var given := Given(published, sub.filter, feed);
    && feed.since <= |published| && |sub.ch| <= CHANNEL_SIZE && feed.consumed <= |given|
    && sub.ch == given[feed.consumed..]
    && (forall i :: i in feed.full ==> i < |published|)
  }

  // ---- The stream ------------------------------------------------------------------------------

  /** select { case sub.ch <- event: default: } */
  function Offered(sub: Subscriber, event: Event): Subscriber {
    if Matches(event, sub.filter) && |sub.ch| < CHANNEL_SIZE then sub.(ch := sub.ch + [event]) else sub
  }

  /** What publishing one more event does to a feed whose channel held `queued` events. */
  function Advanced(feed: Feed, queued: nat, position: nat): Feed {
    if queued < CHANNEL_SIZE then feed else feed.(full := feed.full + {position})
  }

  function Stamped(event: Event, freshID: string, now: int): Event {
    var e := if event.id == "" then event.(id := freshID) else event;
    if e.timestamp.None? then e.(timestamp := Some(now)) else e
  }

  class EventStream {
    var subscribers: map<string, Subscriber>
    var buffer: seq<Event>
    ghost var published: seq<Event>
    ghost var feeds: map<string, Feed>

    ghost predicate Valid()
      reads this
    {
      && buffer == Latest(published, BUFFER_SIZE)
      && FeedsOk(published, subscribers, feeds)
    }

    constructor ()
      ensures Valid() && subscribers == map[] && published == []
    {
      subscribers, buffer, published, feeds := map[], [], [], map[];
    }

    method Subscribe(filter: Filter, id: string)
      requires Valid() && id !in subscribers
      modifies this
      ensures Valid() && published == old(published) && buffer == old(buffer)
      ensures subscribers == old(subscribers)[id := Subscriber(filter, [])]
      ensures feeds == old(feeds)[id := Feed(|published|, {}, 0)]
    {
      subscribers := subscribers[id := Subscriber(filter, [])];
      feeds := feeds[id := Feed(|published|, {}, 0)];
    }

    method Unsubscribe(id: string)
      requires Valid()
      modifies this
      ensures Valid() && published == old(published) && buffer == old(buffer)
      ensures subscribers == old(subscribers) - {id} && feeds == old(feeds) - {id}
    {
      if id in subscribers {
        subscribers, feeds := subscribers - {id}, feeds - {id};
      }
    }

    method Publish(event: Event, freshID: string, now: int)
      requires Valid()
      modifies this
      ensures Valid() && published == old(published) + [Stamped(event, freshID, now)]
      ensures subscribers.Keys == old(subscribers.Keys) == feeds.Keys
      ensures forall id :: id in feeds ==>
                feeds[id] == Advanced(old(feeds)[id], |old(subscribers)[id].ch|, |old(published)|)
    {
      var e := event;
      if e.id == "" {
        e := e.(id := freshID);
      }
      if e.timestamp.None? {
        e := e.(timestamp := Some(now));
      }
      buffer := Remember(buffer, e, published);
      subscribers, feeds := Broadcast(subscribers, e, published, feeds);
      published := published + [e];
    }

    /** A subscriber reads its channel; None when there is nothing to read yet. */
    method Receive(id: string) returns (event: Option<Event>)
      requires Valid() && id in subscribers
      modifies this
      ensures Valid() && published == old(published) && buffer == old(buffer)
      ensures subscribers.Keys == old(subscribers.Keys)
      ensures event == (if old(subscribers)[id].ch == [] then None else Some(old(subscribers)[id].ch[0]))
      ensures feeds == old(feeds)[id := old(feeds)[id].(consumed :=
                         old(feeds)[id].consumed + if event.Some? then 1 else 0)]
    {
      var sub, feed := subscribers[id], feeds[id];
      assert FeedOk(published, sub, feed);
      if sub.ch == [] {
        return None;
      }
      event := Some(sub.ch[0]);
      ReadOk(published, sub, feed);
      subscribers := subscribers[id := sub.(ch := sub.ch[1..])];
      feeds := feeds[id := feed.(consumed := feed.consumed + 1)];
    }

    method RecentEvents() returns (result: seq<Event>)
      requires Valid()
      ensures result == Latest(published, 100)
    {
      result := buffer;
    }

    method RecentEventsFiltered(filter: Filter) returns (result: seq<Event>)
      requires Valid()
      ensures result == Filtered(Latest(published, 100), filter)
    {
      result := [];
      for i := 0 to |buffer|
        invariant result == Filtered(buffer[..i], filter)
      {
        assert buffer[..i + 1][..i] == buffer[..i];
        if Matches(buffer[i], filter) {
          result := result + [buffer[i]];
        }
      }
      assert buffer[..|buffer|] == buffer;
    }
  }

  ghost predicate FeedsOk(published: seq<Event>, subscribers: map<string, Subscriber>, feeds: map<string, Feed>) {
    && feeds.Keys == subscribers.Keys
    && forall id :: id in subscribers ==> FeedOk(published, subscribers[id], feeds[id])
  }

  /** The replay-buffer part of Publish. */
  method Remember(buffer: seq<Event>, e: Event, ghost published: seq<Event>) returns (buffer': seq<Event>)
    requires buffer == Latest(published, BUFFER_SIZE)
    ensures buffer' == Latest(published + [e], BUFFER_SIZE)
  {
    buffer' := buffer + [e];
    if |buffer'| > BUFFER_SIZE {
      buffer' := buffer'[|buffer'| - BUFFER_SIZE..];
    }
  }

  /** The delivery part of Publish. */
  method Broadcast(subscribers: map<string, Subscriber>, e: Event, ghost published: seq<Event>,
                   ghost feeds: map<string, Feed>)
    returns (delivered: map<string, Subscriber>, ghost feeds': map<string, Feed>)
    requires FeedsOk(published, subscribers, feeds)
    ensures FeedsOk(published + [e], delivered, feeds') && delivered.Keys == subscribers.Keys
    ensures forall id :: id in feeds' ==> feeds'[id] == Advanced(feeds[id], |subscribers[id].ch|, |published|)
  {
    delivered := Deliver(subscribers, e);
    DeliveredOk(published, e, subscribers, feeds, delivered);
    feeds' := map id | id in feeds :: Advanced(feeds[id], |subscribers[id].ch|, |published|);
  }

  /** Collects the matching subscribers, then offers the event to each. */
  method Deliver(subscribers: map<string, Subscriber>, event: Event) returns (delivered: map<string, Subscriber>)
    ensures delivered.Keys == subscribers.Keys
    ensures forall id :: id in subscribers ==> delivered[id] == Offered(subscribers[id], event)
  {
    var matching := set id | id in subscribers && Matches(event, subscribers[id].filter);
    delivered := subscribers;
    var todo := matching;
    while todo != {}
      invariant todo <= matching && delivered.Keys == subscribers.Keys
      invariant forall id :: id in subscribers ==>
                  delivered[id] == if id in matching && id !in todo then Offered(subscribers[id], event)
                                   else subscribers[id]
      decreases |todo|
    {
      var id :| id in todo;
      var sub := delivered[id];
      if |sub.ch| < CHANNEL_SIZE {
        delivered := delivered[id := sub.(ch := sub.ch + [event])];
      }
      todo := todo - {id};
    }
  }

  lemma DeliveredOk(published: seq<Event>, e: Event, subscribers: map<string, Subscriber>, feeds: map<string, Feed>,
                    delivered: map<string, Subscriber>)
    requires FeedsOk(published, subscribers, feeds) && delivered.Keys == subscribers.Keys
    requires forall id :: id in subscribers ==> delivered[id] == Offered(subscribers[id], e)
    ensures FeedsOk(published + [e], delivered,
                    map id | id in feeds :: Advanced(feeds[id], |subscribers[id].ch|, |published|))
  {
    forall id | id in subscribers
      ensures FeedOk(published + [e], delivered[id], Advanced(feeds[id], |subscribers[id].ch|, |published|))
    {
      OfferedOk(published, e, subscribers[id], feeds[id]);
    }
  }

  lemma {:induction false} SlotsIgnoreLater(published: seq<Event>, filter: Filter, feed: Feed, position: nat)
    requires |published| <= position
    ensures Slots(published, filter, feed.(full := feed.full + {position})) == Slots(published, filter, feed)
  {
    if |published| > feed.since {
      SlotsIgnoreLater(published[..|published| - 1], filter, feed, position);
    }
  }

  lemma GivenPush(published: seq<Event>, e: Event, filter: Filter, feed: Feed)
    requires feed.since <= |published|
    ensures Given(published + [e], filter, feed)
         == Given(published, filter, feed) + (if Matches(e, filter) && |published| !in feed.full then [e] else [])
  {
    assert (published + [e])[..|published|] == published;
  }

  lemma OfferedOk(published: seq<Event>, e: Event, sub: Subscriber, feed: Feed)
    requires FeedOk(published, sub, feed)
    ensures FeedOk(published + [e], Offered(sub, e), Advanced(feed, |sub.ch|, |published|))
  {
    var feed' := Advanced(feed, |sub.ch|, |published|);
    assert |published| !in feed.full;
    SlotsIgnoreLater(published, sub.filter, feed, |published|);
    GivenPush(published, e, sub.filter, feed');
  }

  lemma ReadOk(published: seq<Event>, sub: Subscriber, feed: Feed)
    requires FeedOk(published, sub, feed) && sub.ch != []
    ensures FeedOk(published, sub.(ch := sub.ch[1..]), feed.(consumed := feed.consumed + 1))
  {
    SlotsIgnoreConsumed(published, sub.filter, feed, feed.consumed + 1);
  }

  lemma {:induction false} SlotsIgnoreConsumed(published: seq<Event>, filter: Filter, feed: Feed, consumed: nat)
    ensures Slots(published, filter, feed.(consumed := consumed)) == Slots(published, filter, feed)
  {
    if |published| > feed.since {
      SlotsIgnoreConsumed(published[..|published| - 1], filter, feed, consumed);
    }
  }

  // ---- Delivery --------------------------------------------------------------------------------

  lemma {:induction false} SlotsExact(published: seq<Event>, filter: Filter, feed: Feed, i: nat)
    ensures i in Slots(published, filter, feed) <==>
              feed.since <= i < |published| && Matches(published[i], filter) && i !in feed.full
  {
    if |published| > feed.since {
      var n := |published| - 1;
      SlotsExact(published[..n], filter, feed, i);
      if i < n { assert published[..n][i] == published[i]; }
    }
  }

  /**
    A subscriber is given, in order, exactly the matching events published since it subscribed,
    less those that found its channel full.
   */
  lemma {:induction false} GivenInOrder(published: seq<Event>, filter: Filter, feed: Feed)
    ensures var slots := Slots(published, filter, feed);
            && (forall j, k :: 0 <= j < k < |slots| ==> slots[j] < slots[k])
            && (forall i: nat :: i in slots <==>
                  feed.since <= i < |published| && Matches(published[i], filter) && i !in feed.full)
  {
    forall i: nat ensures i in Slots(published, filter, feed) <==>
                       feed.since <= i < |published| && Matches(published[i], filter) && i !in feed.full {
      SlotsExact(published, filter, feed, i);
    }
    if |published| > feed.since {
      GivenInOrder(published[..|published| - 1], filter, feed);
    }
  }

  lemma {:induction false} FilteredConcat(a: seq<Event>, b: seq<Event>, filter: Filter)
    ensures Filtered(a + b, filter) == Filtered(a, filter) + Filtered(b, filter)
  {
    if b == [] {
      assert a + b == a;
    } else {
      var n := |b| - 1;
      FilteredConcat(a, b[..n], filter);
      assert (a + b)[..|a + b| - 1] == a + b[..n];
    }
  }

  /** No event that matches found the channel full. */
  ghost predicate NothingDropped(published: seq<Event>, filter: Filter, feed: Feed) {
    forall i :: i in feed.full && feed.since <= i < |published| ==> !Matches(published[i], filter)
  }

  lemma FilteredSince(published: seq<Event>, filter: Filter, since: nat)
    requires since < |published|
    ensures var n := |published| - 1;
            Filtered(published[since..], filter)
              == Filtered(published[..n][since..], filter)
                 + (if Matches(published[n], filter) then [published[n]] else [])
  {
    var n := |published| - 1;
    assert published[since..][..n - since] == published[..n][since..];
  }

  lemma DroppedBefore(published: seq<Event>, filter: Filter, feed: Feed)
    requires feed.since < |published|
    ensures var n := |published| - 1;
            NothingDropped(published, filter, feed)
            <==> (NothingDropped(published[..n], filter, feed) && !(n in feed.full && Matches(published[n], filter)))
  {
    var n := |published| - 1;
    assert forall i :: 0 <= i < n ==> published[..n][i] == published[i];
    if NothingDropped(published, filter, feed) {
      forall i | i in feed.full && feed.since <= i < n ensures !Matches(published[..n][i], filter) {
        assert !Matches(published[i], filter);
      }
    }
  }

  lemma GivenSince(published: seq<Event>, filter: Filter, feed: Feed)
    requires feed.since < |published|
    ensures var n := |published| - 1;
            Given(published, filter, feed) == Given(published[..n], filter, feed)
              + (if Matches(published[n], filter) && n !in feed.full then [published[n]] else [])
  {
    var n := |published| - 1;
    GivenPush(published[..n], published[n], filter, feed);
    assert published[..n] + [published[n]] == published;
  }

  lemma {:induction false} GivenAtMost(published: seq<Event>, filter: Filter, feed: Feed)
    requires feed.since <= |published|
    ensures |Given(published, filter, feed)| <= |Filtered(published[feed.since..], filter)|
    ensures NothingDropped(published, filter, feed) ==>
              Given(published, filter, feed) == Filtered(published[feed.since..], filter)
    ensures !NothingDropped(published, filter, feed) ==>
              |Given(published, filter, feed)| < |Filtered(published[feed.since..], filter)|
  {
    if |published| > feed.since {
      GivenAtMost(published[..|published| - 1], filter, feed);
      DroppedBefore(published, filter, feed);
      GivenSince(published, filter, feed);
      FilteredSince(published, filter, feed.since);
    } else {
      assert published[feed.since..] == [];
    }
  }

  /** A subscriber gets every matching event since it subscribed exactly when none found its channel full. */
  lemma NothingLost(published: seq<Event>, filter: Filter, feed: Feed)
    requires feed.since <= |published|
    ensures Given(published, filter, feed) == Filtered(published[feed.since..], filter)
       <==> NothingDropped(published, filter, feed)
  {
    GivenAtMost(published, filter, feed);
  }

  lemma FilteredBetween(published: seq<Event>, filter: Filter, a: nat, b: nat, c: nat)
    requires a <= b <= c <= |published|
    ensures Filtered(published[a..c], filter) == Filtered(published[a..b], filter) + Filtered(published[b..c], filter)
  {
    assert published[a..c] == published[a..b] + published[b..c];
    FilteredConcat(published[a..b], published[b..c], filter);
  }

  /** The oldest position still buffered when `replayedAt` events have been published. */
  function ReplayFrom(replayedAt: nat): nat { if replayedAt <= 100 then 0 else replayedAt - 100 }

  /**
    Subscribing first and replaying second leaves no gap when nothing was dropped: the replay
    reaches back to position `from`, the stream starts at `feed.since`, and the only events seen
    twice are the matching ones published between subscribing and replaying that the buffer
    still held.
   */
  lemma ReplayLeavesNoGap(published: seq<Event>, filter: Filter, feed: Feed, replayedAt: nat)
    requires feed.since <= replayedAt <= |published| && NothingDropped(published, filter, feed)
    ensures var replay := Filtered(Latest(published[..replayedAt], BUFFER_SIZE), filter);
            var from := ReplayFrom(replayedAt);
            var streamed := Given(published, filter, feed);
            var later := Filtered(published[replayedAt..], filter);
            if from <= feed.since then
              var twice := Filtered(published[feed.since..replayedAt], filter);
              replay == Filtered(published[from..feed.since], filter) + twice && streamed == twice + later
            else
              streamed == Filtered(published[feed.since..from], filter) + replay + later
  {
    var from := ReplayFrom(replayedAt);
    var n := |published|;
    NothingLost(published, filter, feed);
    assert Latest(published[..replayedAt], BUFFER_SIZE) == published[from..replayedAt];
    assert published[feed.since..] == published[feed.since..n] && published[replayedAt..] == published[replayedAt..n];
    FilteredBetween(published, filter, feed.since, replayedAt, n);
    if from <= feed.since {
      FilteredBetween(published, filter, from, feed.since, replayedAt);
    } else {
      FilteredBetween(published, filter, feed.since, from, replayedAt);
    }
  }

  /** The event at a position reaches the client, replayed or streamed. */
  ghost predicate Seen(published: seq<Event>, filter: Filter, feed: Feed, replayedAt: nat, i: nat) {
    ReplayFrom(replayedAt) <= i < replayedAt || i in Slots(published, filter, feed)
  }

  /** Positions since the subscription, or since the start of the replay if that is earlier, whose event matches. */
  ghost predicate Due(published: seq<Event>, filter: Filter, feed: Feed, replayedAt: nat, i: nat) {
    && (feed.since <= i || ReplayFrom(replayedAt) <= i) && i < |published| && Matches(published[i], filter)
  }

  ghost predicate NoGap(published: seq<Event>, filter: Filter, feed: Feed, replayedAt: nat) {
    forall i: nat :: Due(published, filter, feed, replayedAt, i) ==> Seen(published, filter, feed, replayedAt, i)
  }

  /** Even if events were dropped there is a gap only if the replay does not make up for one of them. */
  lemma GapsExactly(published: seq<Event>, filter: Filter, feed: Feed, replayedAt: nat)
    requires feed.since <= replayedAt <= |published|
    ensures NoGap(published, filter, feed, replayedAt)
       <==> forall i :: i in feed.full && feed.since <= i < |published| && Matches(published[i], filter) ==>
              ReplayFrom(replayedAt) <= i < replayedAt
  {
    if NoGap(published, filter, feed, replayedAt) {
      forall i | i in feed.full && feed.since <= i < |published| && Matches(published[i], filter)
        ensures ReplayFrom(replayedAt) <= i < replayedAt
      {
        assert Due(published, filter, feed, replayedAt, i);
        SlotsExact(published, filter, feed, i);
      }
    } else {
      var i: nat :| Due(published, filter, feed, replayedAt, i) && !Seen(published, filter, feed, replayedAt, i);
      SlotsExact(published, filter, feed, i);
    }
  }

  /** An event is lost to a subscriber exactly when 64 earlier ones are waiting. */
  lemma LostOnlyWhenFull(published: seq<Event>, e: Event, sub: Subscriber, feed: Feed)
    requires FeedOk(published, sub, feed) && Matches(e, sub.filter)
    ensures var given := Given(published, sub.filter, feed);
            var given' := Given(published + [e], sub.filter, Advanced(feed, |sub.ch|, |published|));
            if |given| - feed.consumed == 64 then given' == given else given' == given + [e]
  {
    assert |published| !in feed.full;
    SlotsIgnoreLater(published, sub.filter, feed, |published|);
    GivenPush(published, e, sub.filter, Advanced(feed, |sub.ch|, |published|));
  }

  /** An empty filter field takes everything, another only its own value. */
  lemma FiltersMean(event: Event, eventType: string, appID: string)
    ensures Matches(event, Filter("", ""))
    ensures eventType != "" ==> (Matches(event, Filter(eventType, "")) <==> event.eventType == eventType)
    ensures appID != "" ==> (Matches(event, Filter("", appID)) <==> event.appID == appID)
    ensures Matches(event, Filter(eventType, appID))
       <==> Matches(event, Filter(eventType, "")) && Matches(event, Filter("", appID))
  {}

  /** A published event has an ID and a time, its publisher's if it gave them, and is otherwise unchanged. */
  lemma StampedMeans(event: Event, freshID: string, now: int)
    ensures var e := Stamped(event, freshID, now);
            && e.id == (if event.id != "" then event.id else freshID)
            && e.timestamp == (if event.timestamp.Some? then event.timestamp else Some(now))
            && e.eventType == event.eventType && e.appID == event.appID
  {}

  /** The buffer holds the most recent events: all of the first hundred, and then a hundred. */
  lemma LatestMeans(events: seq<Event>, i: nat)
    requires i < |Latest(events, 100)|
    ensures |Latest(events, 100)| == (if |events| < 100 then |events| else 100)
    ensures Latest(events, 100)[|Latest(events, 100)| - 1 - i] == events[|events| - 1 - i]
  {}
}
