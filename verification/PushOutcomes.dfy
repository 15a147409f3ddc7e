/**
 What each step of the service does to the rows, the subscriptions and the recorded ids, said of each of them rather
 than by the transaction that does it: `t` is a store before a step and `u` the one after it.
 */
module PushOutcomes {
  import opened Basics
  import opened Recency
  import opened PushTables
  import opened PushProtocol
  import opened PushSafety

  /** No row is new or changed. */
  ghost predicate KeepsRows(t: Tables, u: Tables) {
    forall r: Row :: r in u.deliveries ==> r in t.deliveries && u.deliveries[r] == t.deliveries[r]
  }

  /** The rows of one subscription are gone. */
  ghost predicate DropsRowsOf(t: Tables, u: Tables, sub: SubId) {
    KeepsRows(t, u) && forall r: Row :: r in u.deliveries <==> r in t.deliveries && r.sub != sub
  }

  ghost predicate SameRowsBut(t: Tables, u: Tables, row: Row) {
    forall r: Row :: r != row ==>
      (r in u.deliveries <==> r in t.deliveries) && (r in u.deliveries ==> u.deliveries[r] == t.deliveries[r])
  }

  // ----- the end of a send

  /** The row is still the one that was sent: of a live epoch, not registered anew, not tried since and not expired. */
  ghost predicate StillOurs(s: System, f: Flight, now: Time) {
    && s.available && (f.snapshot.epoch == TestEpoch || f.snapshot.epoch == s.epoch) && f.row in s.tables.deliveries
    && var d := s.tables.deliveries[f.row];
       d.epoch == f.snapshot.epoch && d.attempts == f.snapshot.attempts && now < d.expiresAt
  }

  /** The provider says that the subscription is gone. */
  predicate IsGone(result: SendResult) { result.Status? && (result.code == 404 || result.code == 410) }

  /** The provider asks for a later attempt, or the send broke. */
  predicate IsRetried(result: SendResult) { result.Broken? || (result.Status? && (result.code == 429 || result.code >= 500)) }

  /** The row is due again after its first or second attempt, and removed after its third. */
  ghost predicate TriedAgain(t: Tables, u: Tables, row: Row, n2: Time)
    requires row in t.deliveries
  {
    var d := t.deliveries[row];
    if d.attempts < 2 then
      && row in u.deliveries
      && u.deliveries[row] == Delivery(d.payload, d.expiresAt, n2 + if d.attempts == 0 then 5.0 else 10.0, d.attempts + 1, d.epoch)
    else row !in u.deliveries
  }

  /** A success, or any answer that is final, ends the row; a subscription that is gone goes with all its rows; other failures are tried again. */
  ghost predicate Completes(s: System, u: Tables, f: Flight, result: SendResult, n1: Time, n2: Time, n3: Time) {
    var t := s.tables;
    && u.events == t.events
    && (result.Status? && !StillOurs(s, f, n1) ==> u == t)
    && (IsGone(result) && StillOurs(s, f, n1) ==> DropsRowsOf(t, u, f.row.sub) && u.subscriptions == t.subscriptions - {f.row.sub})
    && (!IsGone(result) && !StillOurs(s, f, n3) ==> u == t)
    && (!IsGone(result) && StillOurs(s, f, n3) ==>
          && u.subscriptions == t.subscriptions && SameRowsBut(t, u, f.row)
          && if IsRetried(result) then TriedAgain(t, u, f.row, n2) else f.row !in u.deliveries)
  }

  lemma CompletionOutcome(s: System, w: nat, result: SendResult, n1: Time, n2: Time, n3: Time)
    requires Enabled(s, Complete(w, result, n1, n2, n3))
    ensures var s' := Step(s, Complete(w, result, n1, n2, n3));
      && s' == s.(tables := s'.tables, clock := n3, workers := s.workers[w := None])
      && Completes(s, s'.tables, s.workers[w].value, result, n1, n2, n3)
  {
    hide Settled, Completes;
    SettledExactly(s, s.workers[w].value, result, n1, n2, n3);
  }

  lemma SettledExactly(s: System, f: Flight, result: SendResult, n1: Time, n2: Time, n3: Time)
    requires n1 <= n3
    ensures Completes(s, Settled(s, f, result, n1, n2, n3), f, result, n1, n2, n3)
  {
    hide Finish, PushTables.Delete, OwnsDelivery, StillOurs, DropsRowsOf, KeepsRows, Live;
    OursExactly(s, f, n1);
    OursExactly(s, f, n3);
    OursEarlier(s, f, n1, n3);
    if IsGone(result) {
      DeleteExactly(s.tables, f.row.sub);
    } else if IsRetried(result) {
      FinishExactly(s.tables, f.row, f.snapshot, Some(n2 + Backoff(f.snapshot.attempts)));
    } else {
      FinishExactly(s.tables, f.row, f.snapshot, None);
    }
  }

  lemma OursExactly(s: System, f: Flight, now: Time)
    ensures OwnsDelivery(s, s.tables, f, now) <==> StillOurs(s, f, now)
    ensures !OwnsDelivery(s, PushTables.Delete(s.tables, f.row.sub), f, now)
  {
  }

  lemma OursEarlier(s: System, f: Flight, n1: Time, n3: Time)
    requires n1 <= n3
    ensures StillOurs(s, f, n3) ==> StillOurs(s, f, n1) && f.row in s.tables.deliveries
    ensures StillOurs(s, f, n3) ==> s.tables.deliveries[f.row].attempts == f.snapshot.attempts
  {
  }

  lemma FinishExactly(t: Tables, row: Row, snapshot: Delivery, retryAt: Option<Time>)
    ensures var u := Finish(t, row, snapshot, retryAt);
      && u.subscriptions == t.subscriptions && u.events == t.events && SameRowsBut(t, u, row)
      && if retryAt.None? || snapshot.attempts >= 2 || row !in t.deliveries then row !in u.deliveries
         else
           && row in u.deliveries
           && u.deliveries[row] == t.deliveries[row].(attempts := t.deliveries[row].attempts + 1, nextAt := retryAt.value)
  {
  }

  lemma DeleteExactly(t: Tables, sub: SubId)
    ensures var u := PushTables.Delete(t, sub);
      && DropsRowsOf(t, u, sub) && u.subscriptions == t.subscriptions - {sub} && u.events == t.events
  {
  }

  // ----- registrations and epochs

  ghost predicate Registers(t: Tables, u: Tables, sub: SubId, material: string, preferences: set<Kind>, now: Time) {
    && u.events == t.events && DropsRowsOf(t, u, sub)
    && u.subscriptions.Keys == t.subscriptions.Keys + {sub}
    && (forall x :: x in t.subscriptions && x != sub ==> u.subscriptions[x] == t.subscriptions[x])
    && u.subscriptions[sub] ==
         Subscription(material, preferences, now, if sub in t.subscriptions then t.subscriptions[sub].lastTestAt else 0.0)
  }

  /** Other keys for a known subscription, or one more than 64. */
  predicate Refuses(t: Tables, sub: SubId, material: string) {
    if sub in t.subscriptions then t.subscriptions[sub].material != material else |t.subscriptions| >= 64
  }

  lemma RegisteredExactly(t: Tables, sub: SubId, material: string, preferences: set<Kind>, now: Time)
    ensures var r := PushTables.Register(t, sub, material, preferences, now);
      && (r.Registered? <==> !Refuses(t, sub, material))
      && (r.Registered? ==> Registers(t, r.tables, sub, material, preferences, now))
  {
    hide WithoutSub, DropsRowsOf, KeepsRows, Registers;
    var r := PushTables.Register(t, sub, material, preferences, now);
    if r.Registered? {
      RegistersSub(t, r.tables, sub, material, preferences, now);
    }
  }

  lemma RegistersSub(t: Tables, u: Tables, sub: SubId, material: string, preferences: set<Kind>, now: Time)
    requires var last := if sub in t.subscriptions then t.subscriptions[sub].lastTestAt else 0.0;
      u == t.(subscriptions := t.subscriptions[sub := Subscription(material, preferences, now, last)],
              deliveries := WithoutSub(t.deliveries, sub))
    ensures Registers(t, u, sub, material, preferences, now)
  {
    hide WithoutSub, DropsRowsOf, KeepsRows;
    WithoutDrops(t, sub);
    SameDrops(t, t.(deliveries := WithoutSub(t.deliveries, sub)), u, sub);
  }

  lemma WithoutDrops(t: Tables, sub: SubId)
    ensures DropsRowsOf(t, t.(deliveries := WithoutSub(t.deliveries, sub)), sub)
  {
  }

  lemma SameDrops(t: Tables, u: Tables, v: Tables, sub: SubId)
    requires DropsRowsOf(t, u, sub) && v.deliveries == u.deliveries
    ensures DropsRowsOf(t, v, sub)
  {
  }

  /** A registration replaces the subscription, keeps the time of its last test, drops its rows and cancels its sends. */
  lemma RegisterOutcome(s: System, sub: SubId, material: string, preferences: set<Kind>, now: Time)
    requires Enabled(s, Action.Register(sub, material, preferences, now))
    ensures var s' := Step(s, Action.Register(sub, material, preferences, now));
      if Refuses(s.tables, sub, material) then s' == s.(clock := now)
      else Registers(s.tables, s'.tables, sub, material, preferences, now) && CancelsOnly(s, s', sub)
  {
    hide Cancel, PushTables.Register, Refuses, Registers;
    CancelWhere(s, (f: Flight) => f.row.sub == sub);
    RegisteredExactly(s.tables, sub, material, preferences, now);
  }

  /** The sends of one subscription are cancelled, the others go on. */
  ghost predicate CancelsOnly(s: System, s': System, sub: SubId) {
    && |s'.workers| == |s.workers|
    && forall i :: 0 <= i < |s.workers| ==>
         s'.workers[i] == if s.workers[i].None? then None
                          else Some(s.workers[i].value.(cancelled := s.workers[i].value.cancelled || s.workers[i].value.row.sub == sub))
  }

  lemma UnregisterOutcome(s: System, sub: SubId)
    ensures var s' := Step(s, Unregister(sub));
      && s'.tables.events == s.tables.events && DropsRowsOf(s.tables, s'.tables, sub)
      && s'.tables.subscriptions == s.tables.subscriptions - {sub} && CancelsOnly(s, s', sub)
  {
  }

  /** Retiring keeps exactly the rows of one epoch and of tests, as they are. */
  lemma RetireExactly(t: Tables, epoch: Epoch)
    ensures var u := RetireEpochs(t, epoch);
      && u.subscriptions == t.subscriptions && u.events == t.events && KeepsRows(t, u)
      && forall r: Row :: r in u.deliveries <==>
           r in t.deliveries && (t.deliveries[r].epoch == epoch || t.deliveries[r].epoch == TestEpoch)
  {
  }

  /** A new epoch leaves exactly the rows of tests, and every send of a source is cancelled. */
  ghost predicate BeginsEpoch(s: System, s': System, epoch: Epoch) {
    && s'.epoch == epoch && KeepsRows(s.tables, s'.tables)
    && (forall r: Row :: r in s'.tables.deliveries <==> r in s.tables.deliveries && s.tables.deliveries[r].epoch == TestEpoch)
    && s'.tables.subscriptions == s.tables.subscriptions && s'.tables.events == s.tables.events
  }

  /** The sends of a source are cancelled, those of tests go on. */
  ghost predicate CancelsSource(s: System, s': System) {
    && |s'.workers| == |s.workers|
    && forall i :: 0 <= i < |s.workers| ==>
         s'.workers[i] == if s.workers[i].None? then None
                          else Some(s.workers[i].value.(cancelled :=
                            s.workers[i].value.cancelled || s.workers[i].value.snapshot.epoch != TestEpoch))
  }

  lemma EpochBegins(s: System, epoch: Epoch, connected: bool)
    requires EpochsOk(s) && IsFresh(s, epoch)
    ensures var s' := Retire(s, epoch, connected);
      BeginsEpoch(s, s', epoch) && CancelsSource(s, s') && s'.connected == connected
  {
  }

  lemma ConnectOutcome(s: System, epoch: Epoch)
    requires Reachable(s) && Enabled(s, Connect(epoch))
    ensures var s' := Step(s, Connect(epoch)); BeginsEpoch(s, s', epoch) && CancelsSource(s, s') && s'.connected
  {
    hide Retire, RowOk, SeenOk, RowsKnown, FlightsOk, Valid;
    ReachableInv(s);
    EpochBegins(s, epoch, true);
  }

  lemma DisconnectOutcome(s: System, epoch: Epoch)
    requires Reachable(s) && Enabled(s, Disconnect(epoch))
    ensures var s' := Step(s, Disconnect(epoch)); BeginsEpoch(s, s', epoch) && CancelsSource(s, s') && !s'.connected
  {
    hide Retire, RowOk, SeenOk, RowsKnown, FlightsOk, Valid;
    ReachableInv(s);
    EpochBegins(s, epoch, false);
  }

  /** A restart ends every send as well, and leaves the service available without a source. */
  lemma RestartOutcome(s: System, epoch: Epoch)
    requires Reachable(s) && Enabled(s, Restart(epoch))
    ensures var s' := Step(s, Restart(epoch));
      BeginsEpoch(s, s', epoch) && s'.available && !s'.connected && |s'.workers| == |s.workers|
      && forall i :: 0 <= i < |s.workers| ==> s'.workers[i] == None
  {
    hide Retire, RowOk, SeenOk, RowsKnown, FlightsOk, Valid;
    ReachableInv(s);
    var halted := Halt(s);
    assert EpochsOk(halted);
    EpochBegins(halted, epoch, false);
  }

  lemma FailOutcome(s: System)
    requires Enabled(s, Fail)
    ensures var s' := Step(s, Fail);
      && s'.tables == s.tables && !s'.available && !s'.connected && |s'.workers| == |s.workers|
      && forall i :: 0 <= i < |s.workers| ==> s'.workers[i] == None
  {
  }

  // ----- recording ids

  /** Earlier than all others, or as early with a smaller id. */
  ghost predicate GoesFirst(m: map<Key, Time>, k: Key) {
    k in m && forall x :: x in m && x != k ==> m[x] > m[k] || (m[x] == m[k] && x > k)
  }

  /** `u` is `t` with the id recorded, and without one oldest id when there are too many. */
  ghost predicate Records(t: map<Key, Time>, u: map<Key, Time>, id: Key, now: Time) {
    if id in t then u == t
    else if |t| < 4096 then u == t[id := now]
    else exists k :: GoesFirst(t[id := now], k) && u == t[id := now] - {k}
  }

  lemma RecordsExactly(t: map<Key, Time>, id: Key, now: Time)
    requires |t| <= MAX_EVENTS
    ensures Records(t, Remember(t, id, now), id, now)
  {
    hide KeepNewest, GoesFirst;
    if id in t {
      KeepNewestSize(t, MAX_EVENTS);
    } else {
      var all := t[id := now];
      assert all.Keys == t.Keys + {id} && |all.Keys| == |all| && |t.Keys| == |t|;
      KeepNewestSize(all, MAX_EVENTS);
      if |t| == MAX_EVENTS {
        OneTooMany(all);
      }
    }
  }

  lemma OneTooMany(all: map<Key, Time>)
    requires |all| == MAX_EVENTS + 1
    ensures exists k :: GoesFirst(all, k) && KeepNewest(all, MAX_EVENTS) == all - {k}
  {
    hide KeepNewest;
    var oldest := OldestExists(all);
    DropOldest(all, oldest, MAX_EVENTS);
    assert (all - {oldest}).Keys == all.Keys - {oldest};
    assert |(all - {oldest}).Keys| == |all - {oldest}| && |all.Keys| == |all|;
    KeepNewestSize(all - {oldest}, MAX_EVENTS);
    assert GoesFirst(all, oldest);
  }

  lemma PrimeOutcome(s: System, key: Key, now: Time)
    requires Reachable(s) && Enabled(s, Prime(key, now))
    ensures var u := Step(s, Prime(key, now)).tables;
      && u.subscriptions == s.tables.subscriptions && u.deliveries == s.tables.deliveries
      && Records(s.tables.events, u.events, key, now)
  {
    ReachableInv(s);
    RecordsExactly(s.tables.events, key, now);
  }
  // ----- queueing

  predicate IsAlive(t: Tables, r: Row, now: Time) { r in t.deliveries && t.deliveries[r].expiresAt > now }

  /** The rows that have not expired. */
  function AliveRows(t: Tables, now: Time): set<Row> { set r | r in t.deliveries && t.deliveries[r].expiresAt > now }

  /** The first of the targets, as many as there is room for under 1024 rows. */
  ghost predicate IsChosen(t: Tables, targets: seq<SubId>, now: Time, sub: SubId) {
    exists i :: 0 <= i < |targets| && targets[i] == sub && i + |AliveRows(t, now)| < 1024
  }

  function ExpiryOf(payload: Payload, now: Time): Time {
    var sourceTime := payload.sourceTimestampMs as real / 1000.0;
    (if sourceTime < now then sourceTime else now) + 300.0
  }

  /** Each chosen target without a live row of this id gets one, and nothing else is added. */
  ghost predicate RowsQueued(t: Tables, u: Tables, id: Key, payload: Payload, targets: seq<SubId>, now: Time, epoch: Epoch) {
    && (forall r: Row :: r in u.deliveries <==> IsAlive(t, r, now) || (r.event == id && IsChosen(t, targets, now, r.sub)))
    && (forall r: Row :: r in u.deliveries ==>
          u.deliveries[r] ==
            if IsAlive(t, r, now) then t.deliveries[r] else Delivery(payload, ExpiryOf(payload, now), now, 0, epoch))
  }

  /** Only expired rows are gone. */
  ghost predicate OnlyExpires(t: Tables, u: Tables, now: Time) {
    KeepsRows(t, u) && forall r: Row :: r in u.deliveries <==> IsAlive(t, r, now)
  }

  /** What queueing makes of the store: nothing of a payload that is too large, and no row of an id that is recorded. */
  ghost predicate Queues(t: Tables, u: Tables, id: Key, payload: Payload, targets: seq<SubId>, now: Time, epoch: Epoch) {
    if payload.encodedBytes > 3072 then u == t
    else
      && u.subscriptions == t.subscriptions && Records(t.events, u.events, id, now)
      && if id in t.events then OnlyExpires(t, u, now) else RowsQueued(t, u, id, payload, targets, now, epoch)
  }

  lemma ChosenExactly(t: Tables, targets: seq<SubId>, now: Time, sub: SubId)
    ensures sub in Selected(Expire(t, now), targets) <==> IsChosen(t, targets, now, sub)
  {
    var live := Expire(t, now);
    assert live.deliveries.Keys == AliveRows(t, now) && |live.deliveries.Keys| == |live.deliveries|;
    var chosen := Selected(live, targets);
    if i :| 0 <= i < |targets| && targets[i] == sub && i + |AliveRows(t, now)| < 1024 {
      assert chosen[i] == sub;
    }
    if sub in chosen {
      var i :| 0 <= i < |chosen| && chosen[i] == sub;
      assert targets[i] == sub && i + |AliveRows(t, now)| < 1024;
    }
  }

  lemma {:induction false} RowsExactly(t: Tables, id: Key, payload: Payload, targets: seq<SubId>, now: Time, epoch: Epoch, u: Tables)
    requires u.deliveries == Fill(Expire(t, now).deliveries, id, Selected(Expire(t, now), targets), Fresh(payload, now, epoch))
    ensures RowsQueued(t, u, id, payload, targets, now, epoch)
  {
    hide Selected, Fill, AliveRows, IsChosen;
    var live := Expire(t, now);
    var chosen := Selected(live, targets);
    forall sub ensures sub in chosen <==> IsChosen(t, targets, now, sub) {
      ChosenExactly(t, targets, now, sub);
    }
    FillAdds(live.deliveries, id, chosen, Fresh(payload, now, epoch));
  }

  lemma EnqueueExactly(t: Tables, id: Key, payload: Payload, targets: seq<SubId>, now: Time, epoch: Epoch)
    requires |t.events| <= MAX_EVENTS && forall x :: x in targets ==> x in t.subscriptions
    ensures Queues(t, Enqueue(t, id, payload, targets, now, epoch).1, id, payload, targets, now, epoch)
  {
    hide RowsQueued, Remember, Records, Fill;
    RecordsExactly(t.events, id, now);
    var u := Enqueue(t, id, payload, targets, now, epoch).1;
    if payload.encodedBytes <= 3072 && id !in t.events {
      RowsExactly(t, id, payload, targets, now, epoch, u);
    }
  }

  lemma QueueOutcome(s: System, key: Key, payload: Payload, targets: seq<SubId>, now: Time)
    requires Reachable(s) && Enabled(s, Queue(key, payload, targets, now))
    ensures Queues(s.tables, Step(s, Queue(key, payload, targets, now)).tables, key, payload, targets, now, s.epoch)
    ensures forall x :: x in targets <==> x in s.tables.subscriptions && payload.kind in s.tables.subscriptions[x].preferences
    ensures forall i, j :: 0 <= i < j < |targets| ==> targets[i] < targets[j]
  {
    hide Enqueue, Stored, Note, Queues;
    ReachableInv(s);
    EnqueueExactly(s.tables, key, payload, targets, now, s.epoch);
  }

  /** What a test that is let through makes of the store: its time is noted even if its payload is too large. */
  ghost predicate QueuesTest(t: Tables, u: Tables, key: Key, payload: Payload, sub: SubId, now: Time)
    requires sub in t.subscriptions
  {
    var tested := t.(subscriptions := t.subscriptions[sub := t.subscriptions[sub].(lastTestAt := now)]);
    if payload.encodedBytes > 3072 then u.subscriptions == tested.subscriptions && u.events == t.events && OnlyExpires(t, u, now)
    else Queues(tested, u, key, payload, [sub], now, TestEpoch)
  }

  /** A test is queued when there is room, the service admits it and the subscription had none within a minute. */
  lemma SendTestOutcome(s: System, key: Key, payload: Payload, sub: SubId, admitted: bool, now: Time)
    requires Reachable(s) && Enabled(s, SendTest(key, payload, sub, admitted, now))
    ensures var t, u := s.tables, Step(s, SendTest(key, payload, sub, admitted, now)).tables;
      if |AliveRows(t, now)| < 1024 && admitted && now >= t.subscriptions[sub].lastTestAt + 60.0 then
        QueuesTest(t, u, key, payload, sub, now)
      else u.subscriptions == t.subscriptions && u.events == t.events && OnlyExpires(t, u, now)
  {
    hide Enqueue, QueuesTest, Step, AliveRows;
    ReachableInv(s);
    TestStep(s, key, payload, sub, admitted, now);
    TestExactly(s.tables, key, payload, sub, now);
  }

  lemma TestExactly(t: Tables, key: Key, payload: Payload, sub: SubId, now: Time)
    requires |t.events| <= MAX_EVENTS && sub in t.subscriptions
    ensures var live := Tables(t.subscriptions[sub := t.subscriptions[sub].(lastTestAt := now)], t.events, Expire(t, now).deliveries);
      QueuesTest(t, Enqueue(live, key, payload, [sub], now, TestEpoch).1, key, payload, sub, now)
  {
    hide Enqueue, Queues;
    var live := Tables(t.subscriptions[sub := t.subscriptions[sub].(lastTestAt := now)], t.events, Expire(t, now).deliveries);
    var u := Enqueue(live, key, payload, [sub], now, TestEpoch).1;
    TooLarge(live, key, payload, [sub], now, TestEpoch);
    if payload.encodedBytes <= 3072 {
      EnqueueExactly(live, key, payload, [sub], now, TestEpoch);
      QueuesFromAlive(t, live, u, key, payload, [sub], now);
    }
  }

  lemma TooLarge(t: Tables, id: Key, payload: Payload, targets: seq<SubId>, now: Time, epoch: Epoch)
    ensures payload.encodedBytes > 3072 ==> Enqueue(t, id, payload, targets, now, epoch).1 == t
  {
  }

  lemma TestStep(s: System, key: Key, payload: Payload, sub: SubId, admitted: bool, now: Time)
    requires Enabled(s, SendTest(key, payload, sub, admitted, now))
    ensures var t, u := s.tables, Step(s, SendTest(key, payload, sub, admitted, now)).tables;
      if |AliveRows(t, now)| < 1024 && admitted && now >= t.subscriptions[sub].lastTestAt + 60.0 then
        var live := Tables(t.subscriptions[sub := t.subscriptions[sub].(lastTestAt := now)], t.events, Expire(t, now).deliveries);
        u == Enqueue(live, key, payload, [sub], now, TestEpoch).1
      else u == Expire(t, now)
  {
    hide Enqueue, Stored, Note;
    assert Expire(s.tables, now).deliveries.Keys == AliveRows(s.tables, now);
    assert |Expire(s.tables, now).deliveries.Keys| == |Expire(s.tables, now).deliveries|;
  }

  /** Whether expired rows go before or with the transaction makes no difference. */
  lemma QueuesFromAlive(t: Tables, live: Tables, u: Tables, key: Key, payload: Payload, targets: seq<SubId>, now: Time)
    requires payload.encodedBytes <= 3072 && Queues(live, u, key, payload, targets, now, TestEpoch)
    requires live == Tables(live.subscriptions, t.events, Expire(t, now).deliveries)
    ensures Queues(t.(subscriptions := live.subscriptions), u, key, payload, targets, now, TestEpoch)
  {
    hide Records;
    var tested := t.(subscriptions := live.subscriptions);
    SameAlive(tested, live, targets, now);
    assert forall r: Row :: IsAlive(live, r, now) <==> IsAlive(tested, r, now);
  }

  lemma SameAlive(t: Tables, live: Tables, targets: seq<SubId>, now: Time)
    requires live.deliveries == Expire(t, now).deliveries
    ensures forall x :: IsChosen(live, targets, now, x) <==> IsChosen(t, targets, now, x)
  {
    assert AliveRows(live, now) == AliveRows(t, now);
  }

  // ----- claiming

  /** Someone still wants the row, and its source is connected. */
  ghost predicate IsWanted(s: System, row: Row, d: Delivery) {
    && row.sub in s.tables.subscriptions && (d.epoch == TestEpoch || d.epoch == s.epoch)
    && (d.payload.kind == Test || d.payload.kind in s.tables.subscriptions[row.sub].preferences)
  }

  /** The row is one that has not expired, is due, and none is due before it. */
  ghost predicate IsFirstDue(t: Tables, row: Row, now: Time) {
    && IsAlive(t, row, now) && t.deliveries[row].nextAt <= now
    && forall r :: IsAlive(t, r, now) ==> t.deliveries[row].nextAt <= t.deliveries[r].nextAt
  }

  /** Expired rows go, and of the others only this one may change. */
  ghost predicate OnlyTakes(t: Tables, u: Tables, row: Row, now: Time) {
    forall r: Row :: r != row ==>
      (r in u.deliveries <==> IsAlive(t, r, now)) && (r in u.deliveries ==> u.deliveries[r] == t.deliveries[r])
  }

  /** The first row that is due is leased for 30 s and sent as it was, or removed when nobody wants it any more. */
  lemma PollOutcome(s: System, w: nat, row: Row, now: Time)
    requires Enabled(s, Poll(w, Some(row), now))
    ensures var s' := Step(s, Poll(w, Some(row), now));
      var t, u := s.tables, s'.tables;
      && u.subscriptions == t.subscriptions && u.events == t.events && IsFirstDue(t, row, now) && OnlyTakes(t, u, row, now)
      && var d := t.deliveries[row];
         if IsWanted(s, row, d) then
           && row in u.deliveries && u.deliveries[row] == d.(nextAt := now + 30.0)
           && s'.workers == s.workers[w := Some(Flight(row, d, now, false))]
         else row !in u.deliveries && s'.workers == s.workers
  {
    hide InTime, Expire, IsNext, Lease, Finish, Wanted, IsWanted, OnlyTakes, IsFirstDue, Sent;
    AliveExactly(s.tables, now);
    FirstDue(s.tables, row, now);
    DueIsAlive(s.tables, row, now);
    var live := Expire(s.tables, now);
    WantedExactly(s, live, row, now);
    LeaseTakes(s.tables, live, row, now);
  }

  lemma DueIsAlive(t: Tables, row: Row, now: Time)
    requires IsFirstDue(t, row, now)
    ensures IsAlive(t, row, now)
  {
  }

  lemma WantedExactly(s: System, live: Tables, row: Row, now: Time)
    requires live == s.tables.(deliveries := live.deliveries) && row in live.deliveries
    ensures Wanted(s, Lease(live, row, now), row, live.deliveries[row]) <==> IsWanted(s, row, live.deliveries[row])
  {
  }

  /** A lease changes the time of its row alone; finishing without a retry takes the row away. */
  lemma LeaseTakes(t: Tables, live: Tables, row: Row, now: Time)
    requires live == t.(deliveries := live.deliveries) && row in live.deliveries && row in t.deliveries
    requires forall r: Row :: r in live.deliveries <==> IsAlive(t, r, now)
    requires forall r: Row :: r in live.deliveries ==> r in t.deliveries && live.deliveries[r] == t.deliveries[r]
    ensures var (u, d) := (Lease(live, row, now), t.deliveries[row]);
      && u.subscriptions == t.subscriptions && u.events == t.events && OnlyTakes(t, u, row, now)
      && row in u.deliveries && u.deliveries[row] == d.(nextAt := now + 30.0)
    ensures var u := Finish(Lease(live, row, now), row, live.deliveries[row], None);
      u.subscriptions == t.subscriptions && u.events == t.events && OnlyTakes(t, u, row, now) && row !in u.deliveries
  {
    hide Finish;
    FinishExactly(Lease(live, row, now), row, live.deliveries[row], None);
  }

  lemma AliveExactly(t: Tables, now: Time)
    ensures var live := Expire(t, now);
      && live == t.(deliveries := live.deliveries)
      && (forall r: Row :: r in live.deliveries <==> IsAlive(t, r, now))
      && (forall r: Row :: r in live.deliveries ==> live.deliveries[r] == t.deliveries[r])
  {
  }

  lemma FirstDue(t: Tables, row: Row, now: Time)
    requires IsNext(Expire(t, now), now, Some(row))
    ensures IsFirstDue(t, row, now)
  {
    AliveExactly(t, now);
  }

  /** Without a row that is due nothing is leased. */
  lemma IdleOutcome(s: System, w: nat, now: Time)
    requires Enabled(s, Poll(w, None, now))
    ensures var s' := Step(s, Poll(w, None, now));
      var t, u := s.tables, s'.tables;
      && u.subscriptions == t.subscriptions && u.events == t.events && OnlyExpires(t, u, now) && s'.workers == s.workers
      && forall r :: IsAlive(t, r, now) ==> t.deliveries[r].nextAt > now
  {
    AliveExactly(s.tables, now);
    assert forall r :: IsAlive(s.tables, r, now) ==> r in Expire(s.tables, now).deliveries;
  }
}
