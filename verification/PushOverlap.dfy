/**
 The exception to exclusion: a cancelled send is still under way when its event id has been forgotten,
 recorded again and stored anew, and the other worker sends the new row of the same subscription.
 */
module PushOverlap {
  import opened Basics
  import opened Recency
  import opened PushTables
  import opened PushProtocol
  import opened PushSafety
  import opened PushInterruption

  const EVENT := Payload(Native, 60000, 100)
  const SUBSCRIBERS: map<SubId, Subscription> := map[7 := Subscription("", {Native}, 60.0, 0.0)]
  const QUEUED := Delivery(EVENT, 360.0, 60.0, 0, SourceEpoch(1))

  /** The id of the row at 60 s, and after it `n` others at 61 s. */
  function EventsAfter(n: nat): (events: map<Key, Time>)
    ensures |events| == n + 1
    ensures forall k :: k in events <==> k == 5 || 100 <= k < 100 + n
    ensures forall k :: k in events ==> events[k] == if k == 5 then 60.0 else 61.0
  {
    if n == 0 then map[5 := 60.0]
    else
      var before := EventsAfter(n - 1);
      var key := 100 + (n - 1);
      assert before[key := 61.0].Keys == before.Keys + {key};
      assert |before[key := 61.0]| == |before[key := 61.0].Keys| && |before| == |before.Keys|;
      before[key := 61.0]
  }

  /** The one send is cancelled but still under way, its row is gone, and these ids are retained. */
  ghost predicate Cancelled(s: System, events: map<Key, Time>) {
    && s.available && s.connected && s.epoch == SourceEpoch(1) && s.clock <= 61.0
    && s.workers == [Some(Flight(ROW, QUEUED, 60.0, true)), None]
    && s.tables == Tables(SUBSCRIBERS, events, map[])
  }

  lemma OthersFit(n: nat)
    requires n < MAX_EVENTS - 1
    ensures Remember(EventsAfter(n), 100 + n, 61.0) == EventsAfter(n + 1)
  {
    KeepNewestSize(EventsAfter(n + 1), MAX_EVENTS);
  }

  lemma OldestGoes()
    ensures 5 !in Remember(EventsAfter(MAX_EVENTS - 1), 100 + (MAX_EVENTS - 1), 61.0)
  {
    var events := EventsAfter(MAX_EVENTS);
    assert IsOldest(events, 5);
    OldestRank(events, 5);
  }

  lemma PrimeKeepsCancelled(s: System, events: map<Key, Time>, key: Key)
    requires Cancelled(s, events)
    ensures Enabled(s, Prime(key, 61.0)) && Cancelled(Step(s, Prime(key, 61.0)), Remember(events, key, 61.0))
  {
  }

  lemma OneMore(before: System, events: map<Key, Time>, key: Key, after: map<Key, Time>) returns (s: System)
    requires Reachable(before) && Cancelled(before, events) && after == Remember(events, key, 61.0)
    ensures Reachable(s) && Cancelled(s, after)
  {
    PrimeKeepsCancelled(before, events, key);
    StillReachable(before, Prime(key, 61.0));
    s := Step(before, Prime(key, 61.0));
  }

  ghost predicate CrowdedBy(s: System, n: nat) { Reachable(s) && Cancelled(s, EventsAfter(n)) }

  lemma OneMoreFits(before: System, n: nat) returns (s: System)
    requires CrowdedBy(before, n) && n < MAX_EVENTS - 1
    ensures CrowdedBy(s, n + 1)
  {
    OthersFit(n);
    s := OneMore(before, EventsAfter(n), 100 + n, EventsAfter(n + 1));
  }

  lemma {:induction false} Crowd(s0: System, n: nat) returns (s: System)
    requires CrowdedBy(s0, 0) && n < MAX_EVENTS
    ensures CrowdedBy(s, n)
  {
    hide CrowdedBy;
    s := s0;
    for i := 0 to n
      invariant CrowdedBy(s, i)
    {
      s := OneMoreFits(s, i);
    }
  }

  lemma Forgotten(s0: System) returns (s: System, events: map<Key, Time>)
    requires CrowdedBy(s0, 0)
    ensures Reachable(s) && Cancelled(s, events) && 5 !in events
  {
    var n := MAX_EVENTS - 1;
    var full := Crowd(s0, n);
    OldestGoes();
    events := Remember(EventsAfter(n), 100 + n, 61.0);
    s := OneMore(full, EventsAfter(n), 100 + n, events);
  }

  lemma QueueStores(subscriptions: map<SubId, Subscription>, events: map<Key, Time>, now: Time)
    requires 5 !in events && 7 in subscriptions
    ensures var t := Tables(subscriptions, events, map[]);
      Enqueue(t, 5, EVENT, [7], now, SourceEpoch(1)) ==
        (Queued, Tables(subscriptions, Remember(events, 5, now), map[ROW := Fresh(EVENT, now, SourceEpoch(1))]))
  {
    var t := Tables(subscriptions, events, map[]);
    assert Expire(t, now) == t;
    assert Selected(t, [7]) == [7];
    assert [7][..0] == [];
    assert Fill(map[], 5, [7], Fresh(EVENT, now, SourceEpoch(1))) == map[ROW := Fresh(EVENT, now, SourceEpoch(1))];
  }

  ghost predicate Ready(s: System, now: Time, free: nat) {
    && s.available && s.connected && s.epoch == SourceEpoch(1) && s.clock == now && |s.workers| == 2
    && free < 2 && s.workers[free].None?
    && 7 in s.tables.subscriptions && s.tables.subscriptions[7].preferences == {Native}
    && s.tables.deliveries == map[ROW := Fresh(EVENT, now, SourceEpoch(1))]
  }

  lemma QueueReady(s: System, events: map<Key, Time>, now: Time, free: nat)
    requires s.available && s.connected && s.epoch == SourceEpoch(1) && InTime(s, now) && |s.workers| == 2
    requires free < 2 && s.workers[free].None?
    requires exists subscriptions :: s.tables == Tables(subscriptions, events, map[])
    requires s.tables.subscriptions.Keys == {7} && s.tables.subscriptions[7].preferences == {Native} && 5 !in events
    ensures Enabled(s, Queue(5, EVENT, [7], now))
    ensures Ready(Step(s, Queue(5, EVENT, [7], now)), now, free)
    ensures Step(s, Queue(5, EVENT, [7], now)).workers == s.workers
    ensures Step(s, Queue(5, EVENT, [7], now)).tables.events == Remember(events, 5, now)
    ensures Step(s, Queue(5, EVENT, [7], now)).tables.subscriptions == s.tables.subscriptions
  {
    QueueStores(s.tables.subscriptions, events, now);
  }

  lemma PollReady(s: System, now: Time, free: nat)
    requires Ready(s, now, free) && InTime(s, now) && now <= 100.0
    ensures var s' := Step(s, Poll(free, Some(ROW), now));
      && Enabled(s, Poll(free, Some(ROW), now)) && s'.available && s'.connected && s'.epoch == s.epoch && s'.clock == now
      && s'.workers == s.workers[free := Some(Flight(ROW, Fresh(EVENT, now, SourceEpoch(1)), now, false))]
      && s'.tables.events == s.tables.events && s'.tables.subscriptions == s.tables.subscriptions && s'.tables.deliveries.Keys == {ROW}
  {
    var d := Fresh(EVENT, now, SourceEpoch(1));
    assert d.expiresAt > now && d.nextAt == now;
    assert Expire(s.tables, now) == s.tables;
  }

  lemma FirstStates() returns (s: System)
    ensures Reachable(s) && s == Initial(2, SourceEpoch(0), 0.0).(
      tables := Tables(map[7 := Subscription("", {Native}, 0.0, 0.0)], map[], map[]),
      epoch := SourceEpoch(1), epochs := {SourceEpoch(0), SourceEpoch(1)}, connected := true)
  {
    hide Reachable;
    var s0 := Initial(2, SourceEpoch(0), 0.0);
    assert Leads(s0, [], s0);
    var register := Action.Register(7, "", {Native}, 0.0);
    assert WithoutSub(EMPTY.deliveries, 7) == map[];
    assert Cancel(s0.workers, (f: Flight) => f.row.sub == 7) == s0.workers;
    StillReachable(s0, register);
    var s1 := Step(s0, register);
    var connect := Action.Connect(SourceEpoch(1));
    assert Cancel(s1.workers, (f: Flight) => f.snapshot.epoch != TestEpoch) == s1.workers;
    assert RetireEpochs(s1.tables, SourceEpoch(1)) == s1.tables;
    StillReachable(s1, connect);
    s := Step(s1, connect);
  }

  /** Sent once, then registered again: the row goes and its send is cancelled but still under way. */
  lemma SentAndCancelled() returns (s: System)
    ensures Reachable(s) && Cancelled(s, EventsAfter(0))
  {
    hide Step, Enabled, Reachable;
    var s0 := FirstStates();
    QueueReady(s0, map[], 60.0, 0);
    StillReachable(s0, Queue(5, EVENT, [7], 60.0));
    var s1 := Step(s0, Queue(5, EVENT, [7], 60.0));
    PollReady(s1, 60.0, 0);
    StillReachable(s1, Poll(0, Some(ROW), 60.0));
    FirstEvent();
    s := CancelledAgain(Step(s1, Poll(0, Some(ROW), 60.0)));
  }

  lemma CancelledAgain(s: System) returns (s': System)
    requires Reachable(s) && s.available && s.connected && s.epoch == SourceEpoch(1) && s.clock == 60.0
    requires s.workers == [Some(Flight(ROW, Fresh(EVENT, 60.0, SourceEpoch(1)), 60.0, false)), None]
    requires s.tables.subscriptions == map[7 := Subscription("", {Native}, 0.0, 0.0)] && s.tables.events == EventsAfter(0)
    requires s.tables.deliveries.Keys == {ROW}
    ensures Reachable(s') && Cancelled(s', EventsAfter(0))
  {
    assert Fresh(EVENT, 60.0, SourceEpoch(1)) == QUEUED;
    RegisterCancels(s);
    StillReachable(s, Action.Register(7, "", {Native}, 60.0));
    s' := Step(s, Action.Register(7, "", {Native}, 60.0));
  }

  lemma FirstEvent()
    ensures Remember(map[], 5, 60.0) == EventsAfter(0)
  {
    KeepNewestSize(EventsAfter(0), MAX_EVENTS);
  }

  lemma RegisterCancels(s: System)
    requires s.available && s.connected && s.epoch == SourceEpoch(1) && s.clock == 60.0
    requires s.workers == [Some(Flight(ROW, QUEUED, 60.0, false)), None]
    requires s.tables.subscriptions == map[7 := Subscription("", {Native}, 0.0, 0.0)] && s.tables.events == EventsAfter(0)
    requires s.tables.deliveries.Keys == {ROW}
    ensures Enabled(s, Action.Register(7, "", {Native}, 60.0))
    ensures Cancelled(Step(s, Action.Register(7, "", {Native}, 60.0)), EventsAfter(0))
  {
    hide Cancel;
    CancelWhere(s, (f: Flight) => f.row.sub == 7);
    assert WithoutSub(s.tables.deliveries, 7) == map[];
    assert s.tables.subscriptions[7 := Subscription("", {Native}, 60.0, 0.0)] == SUBSCRIBERS;
  }

  /** Two sends of one row are under way. */
  lemma TwoSendsOfOneRow()
    ensures exists s: System, r: Row, i: int, j: int :: Reachable(s) && i != j && OnRow(s, i, r) && OnRow(s, j, r)
  {
    hide Step, Enabled, Reachable;
    var s0 := SentAndCancelled();
    var s1, events := Forgotten(s0);
    QueueReady(s1, events, 62.0, 1);
    StillReachable(s1, Queue(5, EVENT, [7], 62.0));
    var s2 := Step(s1, Queue(5, EVENT, [7], 62.0));
    PollReady(s2, 62.0, 1);
    StillReachable(s2, Poll(1, Some(ROW), 62.0));
    var s3 := Step(s2, Poll(1, Some(ROW), 62.0));
    assert OnRow(s3, 0, ROW) && OnRow(s3, 1, ROW);
  }
}
