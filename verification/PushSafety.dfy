/** What every run of the push service keeps: lease exclusion, three sends, stale sends without effect. */
module PushSafety {
  import opened Basics
  import opened Recency
  import opened PushTables
  import opened PushProtocol

  /** Same sends under way (some perhaps newly cancelled), and no row added or changed. */
  ghost predicate Quiet(s: System, s': System) {
    && s'.sent == s.sent && s'.cuts == s.cuts && s'.mixed == s.mixed
    && (s'.available ==> s.available)
    && s.clock <= s'.clock
    && |s'.workers| == |s.workers|
    && (forall i :: 0 <= i < |s.workers| ==>
          && s'.workers[i].Some? == s.workers[i].Some?
          && (s.workers[i].Some? ==>
                s'.workers[i].value.(cancelled := true) == s.workers[i].value.(cancelled := true)))
    && (forall r :: r in s'.tables.deliveries ==>
          r in s.tables.deliveries && s'.tables.deliveries[r] == s.tables.deliveries[r])
  }

  lemma QuietKeepsRow(s: System, s': System, r: Row)
    requires Quiet(s, s') && RowOk(s, r)
    ensures RowOk(s', r)
  {
    assert forall i :: OnRow(s', i, r) <==> OnRow(s, i, r);
  }

  lemma CancelWhere(s: System, hit: Flight -> bool)
    ensures var w := Cancel(s.workers, hit);
      && |w| == |s.workers|
      && (forall i :: 0 <= i < |w| ==> w[i].Some? == s.workers[i].Some?)
      && (forall i :: 0 <= i < |w| && w[i].Some? ==>
            var f := s.workers[i].value;
            w[i].value == f.(cancelled := f.cancelled || hit(f)))
  {
  }

  /** A quiet step keeps what is said of each row. */
  lemma QuietKeepsRows(s: System, s': System)
    requires Inv(s) && Quiet(s, s')
    requires s.seen <= s'.seen && s.again <= s'.again
    ensures RowsKnown(s') && forall r: Row :: r !in s'.mixed ==> RowOk(s', r)
  {
    SeenGrows(s, s');
    forall r: Row | r !in s'.mixed ensures RowOk(s', r) { QuietKeepsRow(s, s', r); }
  }

  lemma SeenGrows(s: System, s': System)
    requires s.seen <= s'.seen
    ensures forall k :: Seen(s, k) ==> Seen(s', k)
  {
  }

  /** Flights are untouched by a step that only removes rows or adds to the log. */
  lemma SameFlights(s: System, s': System)
    requires FlightsOk(s) && s.seen <= s'.seen && s.again <= s'.again && s.clock <= s'.clock
    requires s'.workers == s.workers && s'.available == s.available && s'.epoch == s.epoch && s'.epochs == s.epochs
    requires s'.mixed == s.mixed && forall r :: r in s'.tables.deliveries ==> r in s.tables.deliveries
    ensures FlightsOk(s')
  {
    SeenGrows(s, s');
    forall i | 0 <= i < |s'.workers| && s'.workers[i].Some?
      ensures FlightOk(s', s'.workers[i].value)
    {
      assert FlightOk(s, s.workers[i].value);
    }
  }

  /** Cancelling sends of a subscription whose rows are gone. */
  lemma DroppedFlights(s: System, s': System, sub: SubId)
    requires Inv(s) && Quiet(s, s') && s'.seen == s.seen && s'.again == s.again
    requires s'.epoch == s.epoch && s'.epochs == s.epochs && s'.available == s.available
    requires s'.workers == Cancel(s.workers, (f: Flight) => f.row.sub == sub)
    requires forall r :: r in s'.tables.deliveries ==> r.sub != sub
    ensures FlightsOk(s')
  {
    CancelWhere(s, (f: Flight) => f.row.sub == sub);
    forall i | 0 <= i < |s'.workers| && s'.workers[i].Some?
      ensures FlightOk(s', s'.workers[i].value)
    {
      assert FlightOk(s, s.workers[i].value);
      assert Seen(s', s.workers[i].value.row.event);
    }
  }

  lemma RegisterStep(s: System, a: Action)
    requires Inv(s) && Enabled(s, a) && a.Register?
    ensures Inv(Step(s, a))
  {
    RegisterKeepsValid(s.tables, a.sub, a.material, a.preferences, a.now);
    var r := PushTables.Register(s.tables, a.sub, a.material, a.preferences, a.now);
    if r.Registered? {
      RegisteredKeeps(s, r.tables, a.sub, a.now);
    } else {
      ClockKeeps(s, a.now);
    }
  }

  lemma RegisteredKeeps(s: System, t: Tables, sub: SubId, now: Time)
    requires Inv(s) && s.clock <= now && Valid(t) && t.events == s.tables.events
    requires t.deliveries == WithoutSub(s.tables.deliveries, sub)
    ensures Inv(s.(tables := t, clock := now, workers := Cancel(s.workers, (f: Flight) => f.row.sub == sub)))
  {
    var s' := s.(tables := t, clock := now, workers := Cancel(s.workers, (f: Flight) => f.row.sub == sub));
    CancelledQuiet(s, s', sub);
    DroppedKeeps(s, s', sub);
  }

  lemma CancelledQuiet(s: System, s': System, sub: SubId)
    requires s' == s.(tables := s'.tables, clock := s'.clock, workers := s'.workers) && s.clock <= s'.clock
    requires s'.workers == Cancel(s.workers, (f: Flight) => f.row.sub == sub)
    requires s'.tables.deliveries == WithoutSub(s.tables.deliveries, sub)
    ensures Quiet(s, s')
  {
    CancelWhere(s, (f: Flight) => f.row.sub == sub);
  }

  lemma DroppedKeeps(s: System, s': System, sub: SubId)
    requires Inv(s) && Quiet(s, s') && s' == s.(tables := s'.tables, clock := s'.clock, workers := s'.workers)
    requires s'.workers == Cancel(s.workers, (f: Flight) => f.row.sub == sub)
    requires Valid(s'.tables) && s'.tables.events == s.tables.events
    requires forall r :: r in s'.tables.deliveries ==> r.sub != sub
    ensures Inv(s')
  {
    DroppedFlights(s, s', sub);
    SameLog(s, s');
    QuietKeepsRows(s, s');
  }

  lemma UnregisterStep(s: System, a: Action)
    requires Inv(s) && Enabled(s, a) && a.Unregister?
    ensures Inv(Step(s, a))
  {
    DeleteKeepsValid(s.tables, a.sub);
    CancelledQuiet(s, Step(s, a), a.sub);
    DroppedKeeps(s, Step(s, a), a.sub);
  }

  lemma RetireKeeps(s: System, newEpoch: Epoch, connected: bool)
    requires Inv(s) && IsFresh(s, newEpoch)
    ensures Inv(Retire(s, newEpoch, connected))
  {
    hide RowOk, FlightOk, Cancel;
    var s' := Retire(s, newEpoch, connected);
    ShrinkKeepsValid(s.tables, s'.tables.deliveries);
    CancelWhere(s, (f: Flight) => f.snapshot.epoch != TestEpoch);
    RetiredFlights(s, newEpoch, connected);
    SameLog(s, s');
    QuietKeepsRows(s, s');
  }

  /** Sends of a source are cancelled with it. */
  lemma RetiredFlights(s: System, newEpoch: Epoch, connected: bool)
    requires FlightsOk(s) && IsFresh(s, newEpoch)
    ensures FlightsOk(Retire(s, newEpoch, connected))
  {
    hide Cancel;
    var s' := Retire(s, newEpoch, connected);
    CancelWhere(s, (f: Flight) => f.snapshot.epoch != TestEpoch);
    SeenGrows(s, s');
    forall i | 0 <= i < |s'.workers| && s'.workers[i].Some?
      ensures FlightOk(s', s'.workers[i].value)
    {
      assert FlightOk(s, s.workers[i].value);
    }
  }

  lemma HaltKeeps(s: System)
    requires Inv(s)
    ensures Inv(Halt(s).(available := false))
  {
    var s' := Halt(s).(available := false);
    forall r: Row | r !in s'.mixed
      ensures RowOk(s', r)
    {
      assert RowOk(s, r);
      HaltedRow(s, r);
    }
  }

  /** Of the sends cut off, those of a source belong to rows that only a restart would take up, and that drops them. */
  lemma HaltedRow(s: System, r: Row)
    requires RowOk(s, r)
    ensures RowOk(Halt(s).(available := false), r)
  {
    var s' := Halt(s).(available := false);
    assert forall i :: !OnRow(s', i, r);
    if r in s.tables.deliveries && s.tables.deliveries[r].epoch == TestEpoch {
      forall i | OnRow(s, i, r) ensures Cuts(s', r) == Cuts(s, r) + 1 {
        assert HeldOk(s, s.workers[i].value);
      }
    }
  }

  lemma ExpireKeeps(s: System, now: Time)
    requires Inv(s) && s.clock <= now
    ensures Inv(Expired(s, now))
  {
    var s' := Expired(s, now);
    ShrinkKeepsValid(s.tables, s'.tables.deliveries);
    assert forall key :: Seen(s', key) <==> Seen(s, key);
    QuietKeepsRows(s, s');
  }

  // ----- recording event ids

  lemma CrowdedGrows(seen: set<(Key, Time)>, more: set<(Key, Time)>, key: Key, time: Time)
    requires seen <= more && Crowded(seen, key, time)
    ensures Crowded(more, key, time)
  {
    Subset(Later(seen, key, time), Later(more, key, time));
  }

  /** An id that pruning drops has the 4096 ids that outrank it behind it. */
  lemma PrunedIsCrowded(seen: set<(Key, Time)>, events: map<Key, Time>, key: Key)
    requires forall k :: k in events ==> (k, events[k]) in seen
    requires key in events && key !in KeepNewest(events, MAX_EVENTS)
    ensures Crowded(seen, key, events[key])
  {
    forall k | k in NewerThan(events, key)
      ensures k in Later(seen, key, events[key])
    {
      assert (k, events[k]) in seen;
    }
    Subset(NewerThan(events, key), Later(seen, key, events[key]));
  }

  lemma NoteKeepsSeen(s: System, key: Key, now: Time)
    requires Inv(s)
    ensures SeenOk(Note(s, key, now).(tables := s.tables.(events := Remember(s.tables.events, key, now))))
  {
    var events := s.tables.events;
    var s' := Note(s, key, now).(tables := s.tables.(events := Remember(events, key, now)));
    var inserted := if key in events then events else events[key := now];
    assert forall k :: k in inserted ==> (k, inserted[k]) in s'.seen;
    forall e | e in s'.seen
      ensures (e.0 in s'.tables.events && s'.tables.events[e.0] == e.1) || Crowded(s'.seen, e.0, e.1)
    {
      if e in s.seen && Crowded(s.seen, e.0, e.1) {
        CrowdedGrows(s.seen, s'.seen, e.0, e.1);
      } else {
        assert e.0 in inserted && inserted[e.0] == e.1;
        if e.0 !in s'.tables.events {
          PrunedIsCrowded(s'.seen, inserted, e.0);
        }
      }
    }
    forall k | k in s'.again
      ensures exists e :: e in s'.seen && e.0 == k && Crowded(s'.seen, e.0, e.1)
    {
      NotedAgain(s, key, now, k);
    }
  }

  lemma NotedAgain(s: System, key: Key, now: Time, k: Key)
    requires Inv(s) && k in Note(s, key, now).again
    ensures exists e :: e in Note(s, key, now).seen && e.0 == k && Crowded(Note(s, key, now).seen, e.0, e.1)
  {
    var s' := Note(s, key, now);
    if k in s.again {
      var e :| e in s.seen && e.0 == k && Crowded(s.seen, e.0, e.1);
      CrowdedGrows(s.seen, s'.seen, e.0, e.1);
    } else {
      var e :| e in s.seen && e.0 == key;
      CrowdedGrows(s.seen, s'.seen, e.0, e.1);
    }
  }

  lemma RememberKeepsValid(t: Tables, key: Key, now: Time)
    requires Valid(t)
    ensures Valid(t.(events := Remember(t.events, key, now)))
  {
    KeepNewestSize(if key in t.events then t.events else t.events[key := now], MAX_EVENTS);
  }

  /** Only the event table and the log changed. */
  lemma LoggedKeeps(s: System, s': System)
    requires Inv(s) && s' == s.(seen := s'.seen, again := s'.again, tables := s.tables.(events := s'.tables.events))
    requires s.seen <= s'.seen && s.again <= s'.again
    requires Valid(s'.tables) && SeenOk(s')
    ensures Inv(s')
  {
    SameFlights(s, s');
    QuietKeepsRows(s, s');
  }

  function Noted(s: System, key: Key, now: Time): System {
    Note(s, key, now).(tables := s.tables.(events := Remember(s.tables.events, key, now)))
  }

  lemma NoteKeeps(s: System, key: Key, now: Time)
    requires Inv(s)
    ensures Inv(Noted(s, key, now))
  {
    RememberKeepsValid(s.tables, key, now);
    NoteKeepsSeen(s, key, now);
    LoggedKeeps(s, Noted(s, key, now));
  }

  /** Not yet tried, due at once, and expired 300 s later at the latest. */
  predicate IsNew(d: Delivery) { d.attempts == 0 && d.expiresAt - 300.0 <= d.nextAt }

  /** `deliveries` adds rows of one id, all alike and not yet tried, and changes no row. */
  ghost predicate Adds(s: System, deliveries: map<Row, Delivery>, key: Key, d: Delivery) {
    && IsNew(d)
    && (forall r :: r in s.tables.deliveries ==> r in deliveries && deliveries[r] == s.tables.deliveries[r])
    && (forall r :: r in deliveries && r !in s.tables.deliveries ==> r.event == key && deliveries[r] == d)
  }

  /** A new row without a send of its earlier storing starts afresh; any other row is as it was. */
  lemma AddedRow(s: System, deliveries: map<Row, Delivery>, key: Key, d: Delivery, r: Row)
    requires Adds(s, deliveries, key, d) && r !in Stored(s, deliveries).mixed && (r !in s.mixed ==> RowOk(s, r))
    ensures RowOk(Stored(s, deliveries), r)
  {
    var s' := Stored(s, deliveries);
    assert forall i :: OnRow(s', i, r) <==> OnRow(s, i, r);
    if r in deliveries && r !in s.tables.deliveries {
      assert forall i :: !OnRow(s', i, r);
    }
  }

  lemma AddedFlights(s: System, deliveries: map<Row, Delivery>)
    requires FlightsOk(s) && s.tables.deliveries.Keys <= deliveries.Keys
    ensures FlightsOk(Stored(s, deliveries))
  {
    var s' := Stored(s, deliveries);
    SeenGrows(s, s');
    forall i | 0 <= i < |s'.workers| && s'.workers[i].Some?
      ensures FlightOk(s', s'.workers[i].value)
    {
      assert FlightOk(s, s.workers[i].value);
    }
  }

  /** A row stored again while a send of it is under way belongs to an id that was forgotten. */
  lemma AddedKnown(s: System, deliveries: map<Row, Delivery>, key: Key, d: Delivery)
    requires Adds(s, deliveries, key, d) && RowsKnown(s) && FlightsOk(s) && Seen(s, key)
    requires key in s.again || forall i, r: Row :: OnRow(s, i, r) ==> r.event != key
    ensures RowsKnown(Stored(s, deliveries))
  {
    var s' := Stored(s, deliveries);
    SeenGrows(s, s');
    forall r | r in s'.mixed ensures r.event in s'.again {
      if r !in s.mixed {
        var i :| 0 <= i < |s.workers| && s.workers[i].Some? && s.workers[i].value.row == r;
        assert OnRow(s, i, r);
      }
    }
  }

  lemma AddsKeeps(s: System, deliveries: map<Row, Delivery>, key: Key, d: Delivery)
    requires Inv(s) && Adds(s, deliveries, key, d) && Seen(s, key) && Live(s, d.epoch) && Valid(s.tables.(deliveries := deliveries))
    requires key in s.again || forall i, r: Row :: OnRow(s, i, r) ==> r.event != key
    ensures Inv(Stored(s, deliveries))
  {
    AddedFlights(s, deliveries);
    AddedKnown(s, deliveries, key, d);
    AddedEpochs(s, deliveries, key, d);
    SameLog(s, Stored(s, deliveries));
    forall r: Row | r !in Stored(s, deliveries).mixed ensures RowOk(Stored(s, deliveries), r) {
      AddedRow(s, deliveries, key, d, r);
    }
  }

  lemma AddedEpochs(s: System, deliveries: map<Row, Delivery>, key: Key, d: Delivery)
    requires EpochsOk(s) && Adds(s, deliveries, key, d) && Live(s, d.epoch)
    ensures EpochsOk(Stored(s, deliveries))
  {
  }

  lemma SameLog(s: System, s': System)
    requires SeenOk(s) && s'.seen == s.seen && s'.again == s.again && s'.tables.events == s.tables.events
    ensures SeenOk(s')
  {
  }

  lemma {:induction false} FillKeeps(s: System, key: Key, targets: seq<SubId>, d: Delivery)
    requires Inv(s) && Seen(s, key) && Live(s, d.epoch) && IsNew(d)
    requires forall x :: x in targets ==> x in s.tables.subscriptions || Row(key, x) in s.tables.deliveries
    requires |s.tables.deliveries| + |targets| <= MAX_DELIVERIES
    requires key in s.again || forall i, r: Row :: OnRow(s, i, r) ==> r.event != key
    ensures Inv(Stored(s, Fill(s.tables.deliveries, key, targets, d)))
  {
    FillAdds(s.tables.deliveries, key, targets, d);
    FillKeepsValid(s.tables, key, targets, d);
    AddsKeeps(s, Fill(s.tables.deliveries, key, targets, d), key, d);
  }

  lemma {:induction false} FillKeepsValid(t: Tables, key: Key, targets: seq<SubId>, d: Delivery)
    requires Valid(t) && IsNew(d) && |t.deliveries| + |targets| <= MAX_DELIVERIES
    requires forall x :: x in targets ==> x in t.subscriptions || Row(key, x) in t.deliveries
    ensures Valid(t.(deliveries := Fill(t.deliveries, key, targets, d)))
  {
    FillAdds(t.deliveries, key, targets, d);
  }

  lemma NotedIsClear(s: System, key: Key, now: Time)
    requires Inv(s) && key !in s.tables.events
    ensures Seen(Noted(s, key, now), key)
    ensures key in Noted(s, key, now).again || forall i, r: Row :: OnRow(Noted(s, key, now), i, r) ==> r.event != key
  {
    var noted := Noted(s, key, now);
    assert (key, now) in noted.seen;
    if key !in noted.again {
      forall i, r: Row | OnRow(noted, i, r) ensures r.event != key {
        assert FlightOk(s, s.workers[i].value);
      }
    }
  }

  lemma {:induction false} QueuedKeeps(live: System, key: Key, targets: seq<SubId>, d: Delivery, now: Time)
    requires Inv(live) && key !in live.tables.events && Live(live, d.epoch) && IsNew(d)
    requires forall x :: x in targets ==> x in live.tables.subscriptions || Row(key, x) in live.tables.deliveries
    requires |live.tables.deliveries| + |targets| <= MAX_DELIVERIES
    ensures Inv(Stored(Noted(live, key, now), Fill(live.tables.deliveries, key, targets, d)))
  {
    NoteKeeps(live, key, now);
    NotedIsClear(live, key, now);
    FillKeeps(Noted(live, key, now), key, targets, d);
  }

  lemma EnqueuedKeeps(s: System, key: Key, payload: Payload, targets: seq<SubId>, now: Time, epoch: Epoch)
    requires Inv(s) && s.clock <= now && Live(s, epoch)
    ensures Inv(Enqueued(s, key, payload, targets, now, epoch))
  {
    var s' := Enqueued(s, key, payload, targets, now, epoch);
    var live := Expired(s, now);
    match Enqueue(s.tables, key, payload, targets, now, epoch).0
    case Oversized => ClockKeeps(s, now);
    case BrokenReference => ClockKeeps(s, now);
    case Duplicate =>
      assert s' == Noted(live, key, now);
      ExpireKeeps(s, now);
      NoteKeeps(live, key, now);
    case Queued =>
      var chosen, d := Selected(live.tables, targets), Fresh(payload, now, epoch);
      QueuedStores(s, key, payload, targets, now, epoch);
      ExpireKeeps(s, now);
      QueuedKeeps(live, key, chosen, d, now);
  }

  lemma {:induction false} QueuedStores(s: System, key: Key, payload: Payload, targets: seq<SubId>, now: Time, epoch: Epoch)
    requires Enqueue(s.tables, key, payload, targets, now, epoch).0.Queued?
    ensures var (live, chosen) := (Expired(s, now), Selected(Expire(s.tables, now), targets));
      && Enqueued(s, key, payload, targets, now, epoch)
         == Stored(Noted(live, key, now), Fill(live.tables.deliveries, key, chosen, Fresh(payload, now, epoch)))
      && key !in live.tables.events
      && (|live.tables.deliveries| <= MAX_DELIVERIES ==> |live.tables.deliveries| + |chosen| <= MAX_DELIVERIES)
      && forall x :: x in chosen ==> x in s.tables.subscriptions || Row(key, x) in live.tables.deliveries
  {
    QueuedTables(s.tables, key, payload, targets, now, epoch);
    StoredFrom(Note(Expired(s, now), key, now), Enqueue(s.tables, key, payload, targets, now, epoch).1, now);
  }

  /** Storing rows and then setting the other tables is setting those first. */
  lemma StoredFrom(s: System, t: Tables, now: Time)
    requires s.clock == now && t.subscriptions == s.tables.subscriptions
    ensures Stored(s, t.deliveries).(tables := t, clock := now) == Stored(s.(tables := s.tables.(events := t.events)), t.deliveries)
  {
  }

  lemma {:induction false} QueuedTables(t: Tables, key: Key, payload: Payload, targets: seq<SubId>, now: Time, epoch: Epoch)
    requires Enqueue(t, key, payload, targets, now, epoch).0.Queued?
    ensures var live, chosen := Expire(t, now), Selected(Expire(t, now), targets);
      && Enqueue(t, key, payload, targets, now, epoch).1 == live.(events := Remember(live.events, key, now),
           deliveries := Fill(live.deliveries, key, chosen, Fresh(payload, now, epoch)))
      && key !in live.events && (|live.deliveries| <= MAX_DELIVERIES ==> |live.deliveries| + |chosen| <= MAX_DELIVERIES)
      && forall x :: x in chosen ==> x in t.subscriptions || Row(key, x) in live.deliveries
  {
  }

  lemma ClockKeeps(s: System, now: Time)
    requires Inv(s) && s.clock <= now
    ensures Inv(s.(clock := now))
  {
    var s' := s.(clock := now);
    SameFlights(s, s');
    QuietKeepsRows(s, s');
  }

  lemma AllowedTestKeeps(s: System, sub: SubId, now: Time)
    requires Inv(s)
    ensures Inv(s.(tables := AllowTest(s.tables, sub, now).1))
  {
    var s' := s.(tables := AllowTest(s.tables, sub, now).1);
    assert s'.tables.subscriptions.Keys == s.tables.subscriptions.Keys;
    assert |s'.tables.subscriptions| == |s.tables.subscriptions| by {
      assert |s'.tables.subscriptions.Keys| == |s'.tables.subscriptions|;
    }
    SameFlights(s, s');
    QuietKeepsRows(s, s');
  }

  lemma SendTestStep(s: System, a: Action)
    requires Inv(s) && Enabled(s, a) && a.SendTest?
    ensures Inv(Step(s, a))
  {
    hide Inv, Enqueued, AllowTest, Valid;
    ExpireKeeps(s, a.now);
    var live := Expired(s, a.now);
    var (allowed, noted) := AllowTest(live.tables, a.sub, a.now);
    if |live.tables.deliveries| < MAX_DELIVERIES && a.admitted && allowed {
      AllowedTestKeeps(live, a.sub, a.now);
      EnqueuedKeeps(live.(tables := noted), a.key, a.payload, [a.sub], a.now, TestEpoch);
    }
  }

  // ----- claiming

  /** A leased row is due only after its lease, so a due row is not being sent. */
  lemma DueIsFree(s: System, row: Row, now: Time)
    requires Inv(s) && InTime(s, now) && row !in s.mixed
    requires row in s.tables.deliveries && s.tables.deliveries[row].nextAt <= now
    ensures forall i :: !OnRow(s, i, row)
  {
    assert RowOk(s, row);
  }

  ghost predicate Launches(s: System, s': System, w: nat, row: Row) {
    && w < |s.workers| && s.workers[w].None?
    && row in s.tables.deliveries && s.tables.deliveries[row].nextAt <= s.clock < s.tables.deliveries[row].expiresAt
    && var d := s.tables.deliveries[row];
       s' == s.(tables := Lease(s.tables, row, s.clock), sent := s.sent[row := Sent(s, row) + 1],
                workers := s.workers[w := Some(Flight(row, d, s.clock, false))])
  }

  lemma LaunchedRow(s: System, s': System, w: nat, row: Row, r: Row)
    requires Launches(s, s', w, row) && RowOk(s, r) && FlightsOk(s) && Valid(s.tables) && s.available
    requires r == row ==> forall i :: !OnRow(s, i, row)
    ensures RowOk(s', r)
  {
    hide RowOk, Launches, FlightsOk, Valid;
    if r == row {
      ClaimedRow(s, s', w, row);
    } else {
      OtherRow(s, s', w, row, r);
    }
  }

  lemma ClaimedRow(s: System, s': System, w: nat, row: Row)
    requires Launches(s, s', w, row) && RowOk(s, row) && Valid(s.tables) && s.available && forall i :: !OnRow(s, i, row)
    ensures RowOk(s', row)
  {
    assert OnRow(s', w, row);
    forall i | OnRow(s', i, row) ensures i == w {
      assert i != w ==> OnRow(s, i, row);
    }
  }

  lemma OtherRow(s: System, s': System, w: nat, row: Row, r: Row)
    requires Launches(s, s', w, row) && RowOk(s, r) && r != row
    ensures RowOk(s', r)
  {
    assert forall i :: OnRow(s', i, r) <==> OnRow(s, i, r);
  }

  lemma LaunchKeepsTables(s: System, s': System, w: nat, row: Row)
    requires Inv(s) && Launches(s, s', w, row)
    ensures Valid(s'.tables) && EpochsOk(s')
  {
    SameSize(s.tables.deliveries, s'.tables.deliveries);
  }

  lemma SameSize(d: map<Row, Delivery>, d': map<Row, Delivery>)
    requires d.Keys == d'.Keys
    ensures |d| == |d'|
  {
    assert |d.Keys| == |d| && |d'.Keys| == |d'|;
  }

  lemma LaunchedFlights(s: System, s': System, w: nat, row: Row)
    requires Inv(s) && Launches(s, s', w, row) && s.available
    ensures FlightsOk(s')
  {
    hide RowOk, SeenOk;
    SeenGrows(s, s');
    forall i | 0 <= i < |s'.workers| && s'.workers[i].Some?
      ensures FlightOk(s', s'.workers[i].value)
    {
      assert i != w ==> FlightOk(s, s.workers[i].value);
    }
  }

  lemma LaunchKeeps(s: System, s': System, w: nat, row: Row)
    requires Inv(s) && Launches(s, s', w, row) && s.available
    requires row !in s.mixed ==> forall i :: !OnRow(s, i, row)
    ensures Inv(s')
  {
    hide RowOk, FlightOk, SeenOk;
    SeenGrows(s, s');
    LaunchKeepsTables(s, s', w, row);
    LaunchedFlights(s, s', w, row);
    SameLog(s, s');
    forall r: Row | r !in s'.mixed ensures RowOk(s', r) { LaunchedRow(s, s', w, row, r); }
  }

  lemma RemovedKeeps(s: System, row: Row)
    requires Inv(s)
    ensures Inv(s.(tables := s.tables.(deliveries := s.tables.deliveries - {row})))
  {
    var s' := s.(tables := s.tables.(deliveries := s.tables.deliveries - {row}));
    ShrinkKeepsValid(s.tables, s'.tables.deliveries);
    SameFlights(s, s');
    QuietKeepsRows(s, s');
  }

  lemma PollStep(s: System, a: Action)
    requires Inv(s) && Enabled(s, a) && a.Poll?
    ensures Inv(Step(s, a))
  {
    ExpireKeeps(s, a.now);
    if a.next.Some? {
      ClaimStep(s, a.worker, a.next.value, a.now);
    }
  }

  lemma ClaimStep(s: System, w: nat, row: Row, now: Time)
    requires Inv(s) && s.available && w < |s.workers| && s.workers[w].None?
    requires InTime(s, now) && IsNext(Expire(s.tables, now), now, Some(row))
    ensures Inv(Polled(s, w, Some(row), now))
  {
    var live := Expire(s.tables, now);
    if Wanted(s, Lease(live, row, now), row, live.deliveries[row]) {
      PolledLaunches(s, w, row, now);
      ClaimLaunches(s, w, row, now);
    } else {
      PolledDrops(s, w, row, now);
      ExpireKeeps(s, now);
      RemovedKeeps(Expired(s, now), row);
    }
  }

  lemma PolledLaunches(s: System, w: nat, row: Row, now: Time)
    requires w < |s.workers| && s.workers[w].None? && IsNext(Expire(s.tables, now), now, Some(row))
    requires var live := Expire(s.tables, now); Wanted(s, Lease(live, row, now), row, live.deliveries[row])
    ensures Launches(Expired(s, now), Polled(s, w, Some(row), now), w, row)
  {
  }

  lemma ClaimLaunches(s: System, w: nat, row: Row, now: Time)
    requires Inv(s) && s.available && w < |s.workers| && s.workers[w].None?
    requires InTime(s, now) && IsNext(Expire(s.tables, now), now, Some(row))
    requires Launches(Expired(s, now), Polled(s, w, Some(row), now), w, row)
    ensures Inv(Polled(s, w, Some(row), now))
  {
    FreeForLaunch(s, row, now);
    ExpireKeeps(s, now);
    LaunchKeeps(Expired(s, now), Polled(s, w, Some(row), now), w, row);
  }

  lemma PolledDrops(s: System, w: nat, row: Row, now: Time)
    requires w < |s.workers| && IsNext(Expire(s.tables, now), now, Some(row))
    requires var live := Expire(s.tables, now); !Wanted(s, Lease(live, row, now), row, live.deliveries[row])
    ensures var live := Expired(s, now);
      Polled(s, w, Some(row), now) == live.(tables := live.tables.(deliveries := live.tables.deliveries - {row}))
  {
    var live := Expire(s.tables, now);
    assert Lease(live, row, now).deliveries - {row} == live.deliveries - {row};
  }

  lemma FreeForLaunch(s: System, row: Row, now: Time)
    requires Inv(s) && InTime(s, now) && IsNext(Expire(s.tables, now), now, Some(row))
    ensures row !in s.mixed ==> forall i :: !OnRow(Expired(s, now), i, row)
  {
    if row !in s.mixed {
      DueIsFree(s, row, now);
      assert forall i :: OnRow(Expired(s, now), i, row) <==> OnRow(s, i, row);
    }
  }

  // ----- completing

  /** What completing flight `f` may do to the rows. */
  ghost predicate Lands(s: System, t: Tables, f: Flight, now: Time) {
    && (forall r :: r in t.deliveries && r != f.row ==>
          r in s.tables.deliveries && t.deliveries[r] == s.tables.deliveries[r])
    && (f.row in t.deliveries ==>
          && f.row in s.tables.deliveries
          && var d, d' := s.tables.deliveries[f.row], t.deliveries[f.row];
             || (d' == d && !OwnsDelivery(s, s.tables, f, now))
             || (d'.attempts == d.attempts + 1 && d.attempts == f.snapshot.attempts < 2 && d'.nextAt >= s.clock + Backoff(d.attempts)
                 && d' == d.(attempts := d'.attempts, nextAt := d'.nextAt)))
  }

  lemma SettleLands(s: System, f: Flight, retryAt: Option<Time>, now: Time)
    requires Valid(s.tables) && (retryAt.Some? ==> retryAt.value >= s.clock + Backoff(f.snapshot.attempts))
    ensures var t := Settle(s, s.tables, f, retryAt, now); Valid(t) && t.events == s.tables.events && Lands(s, t, f, now)
  {
    if OwnsDelivery(s, s.tables, f, now) {
      FinishKeepsValid(s.tables, f.row, f.snapshot, retryAt);
    }
  }

  lemma DeletedLands(s: System, f: Flight, now: Time)
    requires Valid(s.tables)
    ensures var t := Delete(s.tables, f.row.sub);
      && Settle(s, t, f, None, now) == t && Valid(t) && t.events == s.tables.events && Lands(s, t, f, now)
  {
    DeleteKeepsValid(s.tables, f.row.sub);
  }

  /** A check that failed at the first reading fails at the last one too. */
  lemma DisownedLands(s: System, f: Flight, n1: Time, n3: Time)
    requires n1 <= n3 && !OwnsDelivery(s, s.tables, f, n1)
    ensures Lands(s, s.tables, f, n3)
  {
  }

  lemma SettledLands(s: System, f: Flight, result: SendResult, n1: Time, n2: Time, n3: Time)
    requires Valid(s.tables) && s.clock <= n1 <= n2 <= n3
    ensures var t := Settled(s, f, result, n1, n2, n3); Valid(t) && t.events == s.tables.events && Lands(s, t, f, n3)
  {
    var t := Settled(s, f, result, n1, n2, n3);
    if result.Status? && !OwnsDelivery(s, s.tables, f, n1) {
      DisownedLands(s, f, n1, n3);
    } else if result.Status? && result.code in {404, 410} {
      DeletedLands(s, f, n3);
    } else {
      var retryAt: Option<Time> :| t == Settle(s, s.tables, f, retryAt, n3)
        && (retryAt.Some? ==> retryAt.value >= s.clock + Backoff(f.snapshot.attempts));
      SettleLands(s, f, retryAt, n3);
    }
  }

  ghost predicate Landing(s: System, s': System, w: nat) {
    && w < |s.workers| && s.workers[w].Some? && s.clock <= s'.clock
    && Lands(s, s'.tables, s.workers[w].value, s'.clock)
    && s'.tables.events == s.tables.events
    && s' == s.(tables := s'.tables, clock := s'.clock, workers := s.workers[w := None])
  }

  lemma LandedRow(s: System, s': System, w: nat, r: Row)
    requires RowOk(s, r) && EpochsOk(s) && FlightsOk(s) && Landing(s, s', w)
    ensures RowOk(s', r)
  {
    hide RowOk, Lands;
    var f := s.workers[w].value;
    assert FlightOk(s, f);
    assert forall i :: OnRow(s', i, r) <==> OnRow(s, i, r) && i != w;
    if r == f.row {
      assert OnRow(s, w, r);
      LandedOwnRow(s, s', w);
    } else {
      LandedOtherRow(s, s', w, r);
    }
  }

  lemma LandedOwnRow(s: System, s': System, w: nat)
    requires Landing(s, s', w) && RowOk(s, s.workers[w].value.row) && EpochsOk(s) && FlightOk(s, s.workers[w].value)
    requires forall i :: OnRow(s', i, s.workers[w].value.row) <==> OnRow(s, i, s.workers[w].value.row) && i != w
    ensures RowOk(s', s.workers[w].value.row)
  {
    assert OnRow(s, w, s.workers[w].value.row);
  }

  lemma LandedOtherRow(s: System, s': System, w: nat, r: Row)
    requires Landing(s, s', w) && RowOk(s, r) && r != s.workers[w].value.row
    requires forall i :: OnRow(s', i, r) <==> OnRow(s, i, r) && i != w
    ensures RowOk(s', r)
  {
    assert !OnRow(s, w, r);
  }

  lemma LandedFlights(s: System, s': System, w: nat)
    requires FlightsOk(s) && Landing(s, s', w)
    ensures FlightsOk(s')
  {
    SeenGrows(s, s');
    forall i | 0 <= i < |s'.workers| && s'.workers[i].Some?
      ensures FlightOk(s', s'.workers[i].value)
    {
      assert FlightOk(s, s.workers[i].value);
    }
  }

  lemma LandedKnown(s: System, s': System, w: nat)
    requires Inv(s) && Landing(s, s', w)
    ensures RowsKnown(s') && EpochsOk(s')
  {
    SeenGrows(s, s');
  }

  lemma LandingKeeps(s: System, s': System, w: nat)
    requires Inv(s) && Landing(s, s', w) && Valid(s'.tables)
    ensures Inv(s')
  {
    LandedFlights(s, s', w);
    LandedKnown(s, s', w);
    forall r: Row | r !in s'.mixed ensures RowOk(s', r) { LandedRow(s, s', w, r); }
  }

  lemma CompleteStep(s: System, a: Action)
    requires Inv(s) && Enabled(s, a) && a.Complete?
    ensures Inv(Step(s, a))
  {
    var s' := Step(s, a);
    SettledLands(s, s.workers[a.worker].value, a.result, a.n1, a.n2, a.n3);
    LandingKeeps(s, s', a.worker);
  }

  // ----- runs

  lemma StepKeepsInv(s: System, a: Action)
    requires Inv(s) && Enabled(s, a)
    ensures Inv(Step(s, a))
  {
    match a
    case Register(_, _, _, _) => RegisterStep(s, a);
    case Unregister(_) => UnregisterStep(s, a);
    case Connect(newEpoch) => RetireKeeps(s, newEpoch, true);
    case Disconnect(newEpoch) => RetireKeeps(s, newEpoch, false);
    case Queue(key, payload, targets, now) => EnqueuedKeeps(s, key, payload, targets, now, s.epoch);
    case Prime(key, now) => PrimeStep(s, key, now);
    case SendTest(_, _, _, _, _) => SendTestStep(s, a);
    case Poll(_, _, _) => PollStep(s, a);
    case Complete(_, _, _, _, _) => CompleteStep(s, a);
    case Fail => FailStep(s);
    case Restart(newEpoch) => RestartStep(s, newEpoch);
  }

  lemma PrimeStep(s: System, key: Key, now: Time)
    requires Inv(s) && s.clock <= now
    ensures Inv(Noted(s, key, now).(clock := now))
  {
    NoteKeeps(s, key, now);
    ClockKeeps(Noted(s, key, now), now);
  }

  lemma FailStep(s: System)
    requires Inv(s)
    ensures Inv(Halt(s).(available := false))
  {
    HaltKeeps(s);
  }

  lemma RestartStep(s: System, newEpoch: Epoch)
    requires Inv(s) && IsFresh(s, newEpoch)
    ensures Inv(Retire(Halt(s), newEpoch, false).(available := true))
  {
    hide Valid, RowOk, SeenOk, FlightOk;
    var halted := Halt(s).(available := false);
    HaltKeeps(s);
    RetireKeeps(halted, newEpoch, false);
    assert forall r :: r in halted.tables.deliveries ==> Live(halted, halted.tables.deliveries[r].epoch);
    AvailabilityKeeps(Retire(halted, newEpoch, false));
  }

  /** A service becomes available again with no rows but those of tests. */
  lemma AvailabilityKeeps(s: System)
    requires Inv(s) && forall i :: 0 <= i < |s.workers| ==> s.workers[i].None?
    requires forall r :: r in s.tables.deliveries ==> s.tables.deliveries[r].epoch == TestEpoch
    ensures Inv(s.(available := true))
  {
    hide RowOk;
    var s' := s.(available := true);
    SeenGrows(s, s');
    forall r: Row | r !in s'.mixed ensures RowOk(s', r) {
      AvailableRow(s, r);
    }
  }

  lemma AvailableRow(s: System, r: Row)
    requires RowOk(s, r) && (r in s.tables.deliveries ==> s.tables.deliveries[r].epoch == TestEpoch)
    ensures RowOk(s.(available := true), r)
  {
    assert forall i :: OnRow(s.(available := true), i, r) <==> OnRow(s, i, r);
  }

  /** Some sequence of enabled steps leads from a new, empty store to `s`. */
  ghost predicate Leads(s0: System, actions: seq<Action>, s: System)
    decreases |actions|
  {
    if actions == [] then s == s0
    else Enabled(s0, actions[0]) && Leads(Step(s0, actions[0]), actions[1..], s)
  }

  ghost predicate Reachable(s: System) {
    exists workers: nat, epoch, clock, actions ::
      epoch != TestEpoch && Leads(Initial(workers, epoch, clock), actions, s)
  }

  lemma InitialInv(workers: nat, epoch: Epoch, clock: Time)
    requires epoch != TestEpoch
    ensures Inv(Initial(workers, epoch, clock))
  {
  }

  lemma {:induction false} LeadsKeepsInv(s0: System, actions: seq<Action>, s: System)
    requires Inv(s0) && Leads(s0, actions, s)
    ensures Inv(s)
    decreases |actions|
  {
    if actions != [] {
      StepKeepsInv(s0, actions[0]);
      LeadsKeepsInv(Step(s0, actions[0]), actions[1..], s);
    }
  }

  lemma {:induction false} LeadsOn(s0: System, actions: seq<Action>, s: System, a: Action)
    requires Leads(s0, actions, s) && Enabled(s, a)
    ensures Leads(s0, actions + [a], Step(s, a))
    decreases |actions|
  {
    if actions == [] {
      assert [a][1..] == [];
      assert actions + [a] == [a];
    } else {
      LeadsOn(Step(s0, actions[0]), actions[1..], s, a);
      assert (actions + [a])[1..] == actions[1..] + [a];
    }
  }

  lemma StillReachable(s: System, a: Action)
    requires Reachable(s) && Enabled(s, a)
    ensures Reachable(Step(s, a))
  {
    var workers: nat, epoch, clock, actions :| epoch != TestEpoch && Leads(Initial(workers, epoch, clock), actions, s);
    LeadsOn(Initial(workers, epoch, clock), actions, s, a);
  }

  lemma ReachableInv(s: System)
    requires Reachable(s)
    ensures Inv(s)
  {
    var workers: nat, epoch, clock, actions :|
      epoch != TestEpoch && Leads(Initial(workers, epoch, clock), actions, s);
    InitialInv(workers, epoch, clock);
    LeadsKeepsInv(Initial(workers, epoch, clock), actions, s);
  }

  // ----- the promises

  /**
   Lease exclusion. Unless a row was last stored while a send of its earlier storing was under way, it never
   has two sends under way, and since then it was sent at most three times and once more for each time that a
   failure or a restart cut off its send. That never happens to a row of a source. Its expiry after 300 s and
   the lease of 30 s leave at most twelve sends.
   */
  lemma LeaseExclusion(s: System, r: Row)
    requires Reachable(s) && r !in s.mixed
    ensures forall i, j :: OnRow(s, i, r) && OnRow(s, j, r) ==> i == j
    ensures Sent(s, r) <= 3 + Cuts(s, r) && Sent(s, r) <= 12
    ensures r in s.tables.deliveries && s.tables.deliveries[r].epoch != TestEpoch ==> Cuts(s, r) == 0
    ensures forall i :: OnRow(s, i, r) && s.workers[i].value.snapshot.epoch != TestEpoch ==> Cuts(s, r) == 0
  {
    ReachableInv(s);
    assert RowOk(s, r);
  }

  /** A row is stored while a send of its earlier storing is under way only if its event id was inserted again. */
  lemma MixedMeansAgain(s: System, r: Row)
    requires Reachable(s) && r in s.mixed
    ensures r.event in s.again
  {
    ReachableInv(s);
  }

  /**
   An id is inserted a second time only after 4096 other ids were inserted with an equal or later time; so it is
   for each of its insertions but the one that is retained.
   */
  lemma AgainMeansCrowded(s: System, key: Key)
    requires Reachable(s) && key in s.again
    ensures exists time :: (key, time) in s.seen && Crowded(s.seen, key, time)
    ensures forall time :: (key, time) in s.seen && !(key in s.tables.events && s.tables.events[key] == time) ==>
      Crowded(s.seen, key, time)
  {
    ReachableInv(s);
    var e :| e in s.seen && e.0 == key && Crowded(s.seen, e.0, e.1);
    assert (key, e.1) in s.seen;
  }

  /** The step records `key`: priming always does, queueing does unless it is refused. */
  ghost predicate Records(s: System, a: Action, key: Key) {
    match a
    case Prime(k, _) => k == key
    case Queue(k, payload, targets, now) => k == key && Enqueue(s.tables, k, payload, targets, now, s.epoch).0.Queued?
    case _ => false
  }

  lemma RecordsIsSeen(s: System, a: Action, key: Key)
    requires Inv(s) && Enabled(s, a) && Records(s, a, key)
    ensures Seen(Step(s, a), key)
  {
    if key in s.tables.events {
      assert (key, s.tables.events[key]) in Step(s, a).seen;
    } else {
      assert (key, a.now) in Step(s, a).seen;
    }
  }

  /**
   An id once queued or silenced by priming is queued again, in whatever later state and epoch, only
   after 4096 other ids were inserted with a time equal to or later than that of each insertion of the id so far.
   */
  lemma {:induction false} NotQueuedAgain(s: System, a: Action, key: Key, actions: seq<Action>, s': System,
                       payload: Payload, targets: seq<SubId>, now: Time, epoch: Epoch)
    requires Reachable(s) && Enabled(s, a) && Records(s, a, key) && Leads(Step(s, a), actions, s')
    requires Enqueue(s'.tables, key, payload, targets, now, epoch).0.Queued?
    ensures Seen(s', key) && forall time :: (key, time) in s'.seen ==> Crowded(s'.seen, key, time)
  {
    ReachableInv(s);
    StepKeepsInv(s, a);
    RecordsIsSeen(s, a, key);
    LeadsKeepsInv(Step(s, a), actions, s');
    SeenOverRun(Step(s, a), actions, s');
    SeenGrows(Step(s, a), s');
  }

  lemma SeenInStep(s: System, a: Action)
    requires Enabled(s, a)
    ensures s.seen <= Step(s, a).seen
  {
    match a
    case Queue(key, payload, targets, now) => EnqueuedSeen(s, key, payload, targets, now, s.epoch);
    case SendTest(key, payload, sub, _, now) =>
      var live := Expired(s, now);
      EnqueuedSeen(live.(tables := AllowTest(live.tables, sub, now).1), key, payload, [sub], now, TestEpoch);
    case _ =>
  }

  lemma EnqueuedSeen(s: System, key: Key, payload: Payload, targets: seq<SubId>, now: Time, epoch: Epoch)
    ensures s.seen <= Enqueued(s, key, payload, targets, now, epoch).seen
  {
  }

  lemma {:induction false} SeenOverRun(s: System, actions: seq<Action>, s': System)
    requires Leads(s, actions, s')
    ensures s.seen <= s'.seen
    decreases |actions|
  {
    if actions != [] {
      SeenInStep(s, actions[0]);
      SeenOverRun(Step(s, actions[0]), actions[1..], s');
    }
  }

  /** Every stored row belongs to the current source or to a test, within all bounds. */
  lemma StoredRowsAreCurrent(s: System)
    requires Reachable(s)
    ensures Valid(s.tables)
    ensures forall r :: r in s.tables.deliveries ==> s.tables.deliveries[r].epoch in {s.epoch, TestEpoch}
  {
    ReachableInv(s);
  }

  /**
   A stale completion changes nothing: its source was retired, its row is gone, it was cancelled by a
   new registration, a deletion or a source change, or its row expired.
   */
  lemma StaleCompletion(s: System, w: nat, result: SendResult, n1: Time, n2: Time, n3: Time)
    requires Reachable(s) && Enabled(s, Complete(w, result, n1, n2, n3))
    requires var f := s.workers[w].value;
      || f.snapshot.epoch !in {s.epoch, TestEpoch}
      || f.row !in s.tables.deliveries
      || (f.row !in s.mixed && (f.cancelled || f.snapshot.expiresAt <= n1))
    ensures Step(s, Complete(w, result, n1, n2, n3)).tables == s.tables
  {
    hide Leads, Valid, SeenOk, TimeOk, CountOk;
    ReachableInv(s);
    var f := s.workers[w].value;
    assert FlightOk(s, f);
    if f.row !in s.mixed {
      assert RowOk(s, f.row) && OnRow(s, w, f.row);
    }
  }
}
