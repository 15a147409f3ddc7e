/**
 The push service around the store: two workers whose code between two awaits is one atomic step,
 interleaved with registrations, deletions, source changes, queueing, failures and restarts.
 `sent`, `cuts`, `mixed`, `seen`, `again` and `epochs` only record what happened.
 */
module PushProtocol {
  import opened Basics
  import opened Recency
  import opened PushTables

  /** What a worker remembers across the one await inside a delivery. */
  datatype Flight = Flight(row: Row, snapshot: Delivery, claimedAt: Time, cancelled: bool)

  datatype SendResult = Status(code: int) | Cancelled | Invalid | Broken

  datatype System = System(
    tables: Tables,
    available: bool,
    connected: bool,
    epoch: Epoch,
    workers: seq<Option<Flight>>,
    clock: Time,
    sent: map<Row, nat>,           // sends started for each row since it was last stored
    cuts: map<Row, nat>,           // those of a test that a failure or a restart cut off
    mixed: set<Row>,               // rows last stored while a send of their earlier storing was under way
    seen: set<(Key, Time)>,        // every insertion of an event id, with its time
    again: set<Key>,               // ids inserted a second time after being forgotten
    epochs: set<Epoch>)            // every epoch so far

  datatype Action =
    | Register(sub: SubId, material: string, preferences: set<Kind>, now: Time)
    | Unregister(sub: SubId)
    | Connect(newEpoch: Epoch)
    | Disconnect(newEpoch: Epoch)
    | Queue(key: Key, payload: Payload, targets: seq<SubId>, now: Time)
    | Prime(key: Key, now: Time)
    | SendTest(key: Key, payload: Payload, sub: SubId, admitted: bool, now: Time)
    | Poll(worker: nat, next: Option<Row>, now: Time)
    | Complete(worker: nat, result: SendResult, n1: Time, n2: Time, n3: Time)
    | Fail
    | Restart(newEpoch: Epoch)

  function Initial(workers: nat, epoch: Epoch, clock: Time): System {
    System(EMPTY, true, false, epoch, seq(workers, i => None), clock, map[], map[], {}, {}, {}, {epoch})
  }

  // ----- what each step may assume: the clock never goes back and no send outlives its lease

  ghost predicate InTime(s: System, now: Time) {
    && s.clock <= now
    && forall i :: 0 <= i < |s.workers| && s.workers[i].Some? ==> now < s.workers[i].value.claimedAt + 30.0
  }

  ghost predicate IsFresh(s: System, epoch: Epoch) {
    epoch.SourceEpoch? && epoch !in s.epochs
  }

  /** The targets of a source event: the subscriptions whose preferences select its kind, each once. */
  ghost predicate IsTargets(t: Tables, kind: Kind, targets: seq<SubId>) {
    && (forall x :: x in targets <==> x in t.subscriptions && kind in t.subscriptions[x].preferences)
    && (forall i, j :: 0 <= i < j < |targets| ==> targets[i] < targets[j])
  }

  ghost predicate Enabled(s: System, a: Action) {
    match a
    case Register(_, _, _, now) => InTime(s, now)
    case Unregister(_) => true
    case Connect(newEpoch) => s.available && IsFresh(s, newEpoch)
    case Disconnect(newEpoch) => s.available && IsFresh(s, newEpoch)
    case Queue(_, payload, targets, now) =>
      s.available && s.connected && InTime(s, now) && IsTargets(s.tables, payload.kind, targets)
    case Prime(_, now) => s.available && InTime(s, now)
    case SendTest(_, _, sub, _, now) => InTime(s, now) && sub in s.tables.subscriptions
    case Poll(w, next, now) =>
      s.available && w < |s.workers| && s.workers[w].None? && InTime(s, now) && IsNext(Expire(s.tables, now), now, next)
    case Complete(w, _, n1, n2, n3) =>
      w < |s.workers| && s.workers[w].Some? && InTime(s, n1) && n1 <= n2 <= n3 && InTime(s, n3)
    case Fail => s.available
    case Restart(newEpoch) => IsFresh(s, newEpoch)
  }

  // ----- the steps

  function Cancel(workers: seq<Option<Flight>>, hit: Flight -> bool): seq<Option<Flight>> {
    seq(|workers|, i requires 0 <= i < |workers| =>
      if workers[i].Some? && hit(workers[i].value) then Some(workers[i].value.(cancelled := true)) else workers[i])
  }

  function Retire(s: System, newEpoch: Epoch, connected: bool): System {
    s.(tables := RetireEpochs(s.tables, newEpoch), epoch := newEpoch, epochs := s.epochs + {newEpoch}, connected := connected,
       workers := Cancel(s.workers, (f: Flight) => f.snapshot.epoch != TestEpoch))
  }

  function Halt(s: System): System {
    var cut := set i | 0 <= i < |s.workers| && s.workers[i].Some? && s.workers[i].value.snapshot.epoch == TestEpoch :: s.workers[i].value.row;
    s.(workers := seq(|s.workers|, i => None), connected := false,
       cuts := map r | r in s.cuts.Keys + cut :: Cuts(s, r) + if r in cut then 1 else 0)
  }

  function Cuts(s: System, row: Row): nat {
    if row in s.cuts then s.cuts[row] else 0
  }

  predicate Seen(s: System, key: Key) {
    exists e :: e in s.seen && e.0 == key
  }

  function Note(s: System, key: Key, now: Time): System {
    if key in s.tables.events then s
    else s.(seen := s.seen + {(key, now)}, again := if Seen(s, key) then s.again + {key} else s.again)
  }

  function Expired(s: System, now: Time): System {
    s.(tables := Expire(s.tables, now), clock := now)
  }

  /** The tables with the rows that `deliveries` adds, which count their sends anew. */
  function Stored(s: System, deliveries: map<Row, Delivery>): System {
    var added := deliveries.Keys - s.tables.deliveries.Keys;
    s.(tables := s.tables.(deliveries := deliveries), sent := s.sent - added, cuts := s.cuts - added,
       mixed := (s.mixed - added) + set i | 0 <= i < |s.workers| && s.workers[i].Some? && s.workers[i].value.row in added :: s.workers[i].value.row)
  }

  function Enqueued(s: System, key: Key, payload: Payload, targets: seq<SubId>, now: Time, epoch: Epoch): System {
    var (outcome, tables) := Enqueue(s.tables, key, payload, targets, now, epoch);
    (if outcome.Queued? then Stored(Note(Expired(s, now), key, now), tables.deliveries) else s).(tables := tables, clock := now)
  }

  function Sent(s: System, row: Row): nat {
    if row in s.sent then s.sent[row] else 0
  }

  predicate Live(s: System, epoch: Epoch) {
    epoch in {TestEpoch, s.epoch}
  }

  /** Whether a claimed row still has a subscriber who wants it and a source that is connected. */
  predicate Wanted(s: System, t: Tables, row: Row, d: Delivery) {
    && row.sub in t.subscriptions
    && Live(s, d.epoch)
    && (d.payload.kind == Test || d.payload.kind in t.subscriptions[row.sub].preferences)
  }

  /** `_worker` up to its await: lease the next row, then drop it or start sending it. */
  function Polled(s: System, w: nat, next: Option<Row>, now: Time): System
    requires w < |s.workers| && IsNext(Expire(s.tables, now), now, next)
  {
    var live := Expired(s, now);
    if next.None? then live
    else
      var row := next.value;
      var d := live.tables.deliveries[row];
      var leased := Lease(live.tables, row, now);
      if !Wanted(s, leased, row, d) then live.(tables := Finish(leased, row, d, None))
      else
        live.(tables := leased, sent := s.sent[row := Sent(s, row) + 1],
              workers := s.workers[w := Some(Flight(row, d, now, false))])
  }

  predicate OwnsDelivery(s: System, t: Tables, f: Flight, now: Time) {
    s.available && Live(s, f.snapshot.epoch) && Owns(t, f.row, f.snapshot, now)
  }

  function Settle(s: System, t: Tables, f: Flight, retryAt: Option<Time>, now: Time): Tables {
    if OwnsDelivery(s, t, f, now) then Finish(t, f.row, f.snapshot, retryAt) else t
  }

  function Backoff(attempts: nat): Time {
    if attempts == 0 then 5.0 else if attempts == 1 then 10.0 else if attempts == 2 then 20.0
    else if attempts == 3 then 40.0 else 60.0
  }

  /** `_deliver` from its await to the end, with its three clock readings. */
  function Settled(s: System, f: Flight, result: SendResult, n1: Time, n2: Time, n3: Time): Tables {
    var t, retry := s.tables, Some(n2 + Backoff(f.snapshot.attempts));
    match result
    case Status(code) =>
      if !OwnsDelivery(s, t, f, n1) then t
      else if code in {404, 410} then Settle(s, Delete(t, f.row.sub), f, None, n3)
      else if code == 429 || code >= 500 then Settle(s, t, f, retry, n3)
      else Settle(s, t, f, None, n3)
    case Cancelled => Settle(s, t, f, None, n3)
    case Invalid => Settle(s, t, f, None, n3)
    case Broken => Settle(s, t, f, retry, n3)
  }

  function Step(s: System, a: Action): System
    requires Enabled(s, a)
  {
    match a
    case Register(sub, material, preferences, now) =>
      (match PushTables.Register(s.tables, sub, material, preferences, now)
       case Registered(t) =>
         s.(tables := t, clock := now, workers := Cancel(s.workers, (f: Flight) => f.row.sub == sub))
       case _ => s.(clock := now))
    case Unregister(sub) =>
      s.(tables := Delete(s.tables, sub), workers := Cancel(s.workers, (f: Flight) => f.row.sub == sub))
    case Connect(newEpoch) => Retire(s, newEpoch, true)
    case Disconnect(newEpoch) => Retire(s, newEpoch, false)
    case Queue(key, payload, targets, now) => Enqueued(s, key, payload, targets, now, s.epoch)
    case Prime(key, now) =>
      Note(s, key, now).(tables := s.tables.(events := Remember(s.tables.events, key, now)), clock := now)
    case SendTest(key, payload, sub, admitted, now) =>
      var live := Expired(s, now);
      if |live.tables.deliveries| >= MAX_DELIVERIES || !admitted then live
      else
        var (allowed, noted) := AllowTest(live.tables, sub, now);
        if !allowed then live
        else Enqueued(live.(tables := noted), key, payload, [sub], now, TestEpoch)
    case Poll(w, next, now) => Polled(s, w, next, now)
    case Complete(w, result, n1, n2, n3) =>
      s.(tables := Settled(s, s.workers[w].value, result, n1, n2, n3), clock := n3, workers := s.workers[w := None])
    case Fail => Halt(s).(available := false)
    case Restart(newEpoch) => Retire(Halt(s), newEpoch, false).(available := true)
  }

  // ----- the invariant

  predicate OnRow(s: System, i: int, r: Row) {
    0 <= i < |s.workers| && s.workers[i].Some? && s.workers[i].value.row == r
  }

  /** While a send holds a row that still exists, only its lease has changed. */
  ghost predicate HeldOk(s: System, f: Flight) {
    f.row in s.tables.deliveries ==>
      var d := s.tables.deliveries[f.row];
      && d.attempts == f.snapshot.attempts && d.epoch == f.snapshot.epoch && d.expiresAt == f.snapshot.expiresAt
      && d.nextAt == f.claimedAt + 30.0
  }

  /** The time the retries so far waited at least. */
  function Waited(attempts: nat): Time { if attempts == 0 then 0.0 else if attempts == 1 then 5.0 else 15.0 }

  /** A row is stored at most 300 s before it expires, and each send cut off keeps it leased for 30 s. */
  function Earliest(s: System, r: Row, d: Delivery): Time {
    d.expiresAt - 300.0 + 30.0 * Cuts(s, r) as real + Waited(d.attempts)
  }

  /** No send of the row starts before its earliest time. */
  ghost predicate TimeOk(s: System, r: Row) {
    && (forall i :: OnRow(s, i, r) ==> Earliest(s, r, s.workers[i].value.snapshot) <= s.workers[i].value.claimedAt)
    && (r in s.tables.deliveries && (forall i :: !OnRow(s, i, r)) ==>
          Earliest(s, r, s.tables.deliveries[r]) <= s.tables.deliveries[r].nextAt)
  }

  ghost predicate CountOk(s: System, r: Row) {
    && Sent(s, r) <= 3 + Cuts(s, r) && Sent(s, r) <= 12
    && (forall i :: OnRow(s, i, r) ==>
          var snapshot := s.workers[i].value.snapshot;
          Sent(s, r) <= snapshot.attempts + 1 + Cuts(s, r) && (snapshot.epoch != TestEpoch ==> Cuts(s, r) == 0))
    && (r in s.tables.deliveries ==>
          var d := s.tables.deliveries[r];
          && Sent(s, r) <= d.attempts + 1 + Cuts(s, r) && (d.epoch != TestEpoch ==> Cuts(s, r) == 0)
          && (d.expiresAt > s.clock && (s.available || d.epoch == TestEpoch) && (forall i :: !OnRow(s, i, r)) ==>
                Sent(s, r) <= d.attempts + Cuts(s, r)))
  }

  ghost predicate RowOk(s: System, r: Row) {
    && (forall i, j :: OnRow(s, i, r) && OnRow(s, j, r) ==> i == j)
    && (forall i :: OnRow(s, i, r) ==> HeldOk(s, s.workers[i].value))
    && CountOk(s, r) && TimeOk(s, r)
  }

  ghost predicate FlightOk(s: System, f: Flight) {
    && s.available
    && f.snapshot.attempts <= 2
    && f.claimedAt <= s.clock
    && Seen(s, f.row.event)
    && (f.snapshot.epoch == TestEpoch || f.snapshot.epoch in s.epochs)
    && (f.cancelled ==>
          || (f.snapshot.epoch != TestEpoch && f.snapshot.epoch != s.epoch)
          || f.row !in s.tables.deliveries
          || f.row in s.mixed)
  }

  /** The ids other than `key` that were inserted with an equal or later time. */
  function Later(seen: set<(Key, Time)>, key: Key, time: Time): set<Key> {
    set e | e in seen && e.0 != key && e.1 >= time :: e.0
  }

  ghost predicate Crowded(seen: set<(Key, Time)>, key: Key, time: Time) {
    |Later(seen, key, time)| >= MAX_EVENTS
  }

  ghost predicate SeenOk(s: System) {
    && (forall k :: k in s.tables.events ==> (k, s.tables.events[k]) in s.seen)
    && (forall e :: e in s.seen ==>
          (e.0 in s.tables.events && s.tables.events[e.0] == e.1) || Crowded(s.seen, e.0, e.1))
    && (forall k :: k in s.again ==> exists e :: e in s.seen && e.0 == k && Crowded(s.seen, e.0, e.1))
  }

  ghost predicate RowsKnown(s: System) {
    && (forall r :: r in s.tables.deliveries ==> Seen(s, r.event))
    && (forall r :: r in s.mixed ==> r.event in s.again)
  }

  ghost predicate EpochsOk(s: System) {
    && s.epoch.SourceEpoch? && s.epoch in s.epochs
    && (forall r :: r in s.tables.deliveries ==> Live(s, s.tables.deliveries[r].epoch))
  }

  ghost predicate FlightsOk(s: System) {
    forall i :: 0 <= i < |s.workers| && s.workers[i].Some? ==> FlightOk(s, s.workers[i].value)
  }

  ghost predicate Inv(s: System) {
    && Valid(s.tables)
    && EpochsOk(s)
    && SeenOk(s)
    && RowsKnown(s)
    && FlightsOk(s)
    && (forall r: Row :: r !in s.mixed ==> RowOk(s, r))
  }
}
