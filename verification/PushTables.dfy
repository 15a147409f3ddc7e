/**
 The push store's three tables as a value, and one function per transaction of `PushStore`.
 Subscription and event identifiers are SHA-256 digests read as numbers.
 */
module PushTables {
  import opened Basics
  import opened Recency

  const MAX_SUBSCRIPTIONS: nat := 64
  const MAX_EVENTS: nat := 4096
  const MAX_DELIVERIES: nat := 1024
  const MAX_PAYLOAD_BYTES: nat := 3072

  type SubId = nat

  datatype Kind = Native | Ev | Water | LowBattery | Test

  /** The part of a payload the store looks at: its encoded size and its source time. */
  datatype Payload = Payload(kind: Kind, sourceTimestampMs: int, encodedBytes: nat)

  datatype Epoch = TestEpoch | SourceEpoch(id: nat)

  datatype Subscription = Subscription(material: string, preferences: set<Kind>, updatedAt: Time, lastTestAt: Time)

  datatype Row = Row(event: Key, sub: SubId)

  datatype Delivery =
    Delivery(payload: Payload, expiresAt: Time, nextAt: Time, attempts: nat, epoch: Epoch)

  datatype Tables = Tables(
    subscriptions: map<SubId, Subscription>,
    events: map<Key, Time>,
    deliveries: map<Row, Delivery>)

  const EMPTY := Tables(map[], map[], map[])

  datatype Registration = Registered(tables: Tables) | KeysConflict | LimitReached

  datatype Outcome = Queued | Duplicate | Oversized | BrokenReference

  /** Referential integrity, the three size bounds and the attempt range that reopening checks. */
  ghost predicate Valid(t: Tables) {
    && (forall r :: r in t.deliveries ==> r.sub in t.subscriptions && t.deliveries[r].attempts <= 2)
    && |t.subscriptions| <= MAX_SUBSCRIPTIONS
    && |t.events| <= MAX_EVENTS
    && |t.deliveries| <= MAX_DELIVERIES
  }

  function Expire(t: Tables, now: Time): Tables {
    t.(deliveries := map r | r in t.deliveries && t.deliveries[r].expiresAt > now :: t.deliveries[r])
  }

  function WithoutSub(deliveries: map<Row, Delivery>, id: SubId): map<Row, Delivery> {
    map r | r in deliveries && r.sub != id :: deliveries[r]
  }

  function Register(t: Tables, id: SubId, material: string, preferences: set<Kind>, now: Time): Registration {
    if id in t.subscriptions && t.subscriptions[id].material != material then
      KeysConflict
    else if id !in t.subscriptions && |t.subscriptions| >= MAX_SUBSCRIPTIONS then
      LimitReached
    else
      var lastTestAt := if id in t.subscriptions then t.subscriptions[id].lastTestAt else 0.0;
      Registered(t.(
        subscriptions := t.subscriptions[id := Subscription(material, preferences, now, lastTestAt)],
        deliveries := WithoutSub(t.deliveries, id)))
  }

  /** Deleting a subscription cascades to its deliveries. */
  function Delete(t: Tables, id: SubId): Tables {
    t.(subscriptions := t.subscriptions - {id}, deliveries := WithoutSub(t.deliveries, id))
  }

  function AllowTest(t: Tables, id: SubId, now: Time): (bool, Tables) {
    if id in t.subscriptions && t.subscriptions[id].lastTestAt <= now - 60.0 then
      (true, t.(subscriptions := t.subscriptions[id := t.subscriptions[id].(lastTestAt := now)]))
    else
      (false, t)
  }

  /** Insert unless present, then prune. Whether a row was inserted is decided before pruning. */
  function Remember(events: map<Key, Time>, id: Key, now: Time): map<Key, Time> {
    KeepNewest(if id in events then events else events[id := now], MAX_EVENTS)
  }

  function Min(a: Time, b: Time): Time { if a <= b then a else b }

  function Fresh(payload: Payload, now: Time, epoch: Epoch): Delivery {
    Delivery(payload, Min(now + 300.0, payload.sourceTimestampMs as real / 1000.0 + 300.0), now, 0, epoch)
  }

  /** The outbox after inserting one row for each target, ignoring rows that already exist. */
  function Fill(deliveries: map<Row, Delivery>, id: Key, targets: seq<SubId>, d: Delivery): map<Row, Delivery> {
    if targets == [] then deliveries
    else
      var before := Fill(deliveries, id, targets[..|targets| - 1], d);
      var row := Row(id, targets[|targets| - 1]);
      if row in before then before else before[row := d]
  }

  function Selected(t: Tables, targets: seq<SubId>): seq<SubId> {
    if |t.deliveries| >= MAX_DELIVERIES then []
    else if |targets| <= MAX_DELIVERIES - |t.deliveries| then targets
    else targets[..MAX_DELIVERIES - |t.deliveries|]
  }

  function Enqueue(t: Tables, id: Key, payload: Payload, targets: seq<SubId>, now: Time, epoch: Epoch): (Outcome, Tables) {
    if payload.encodedBytes > MAX_PAYLOAD_BYTES then (Oversized, t)
    else
      var live := Expire(t, now);
      var noted := live.(events := Remember(live.events, id, now));
      if id in live.events then (Duplicate, noted)
      else
        var chosen := Selected(live, targets);
        if exists x :: x in chosen && x !in t.subscriptions && Row(id, x) !in live.deliveries then (BrokenReference, t)
        else (Queued, noted.(deliveries := Fill(live.deliveries, id, chosen, Fresh(payload, now, epoch))))
  }

  function RetireEpochs(t: Tables, epoch: Epoch): Tables {
    t.(deliveries := map r | r in t.deliveries && t.deliveries[r].epoch in {epoch, TestEpoch} :: t.deliveries[r])
  }

  /** A due row with the smallest due time; which one is open when several share it. */
  predicate IsNext(t: Tables, now: Time, row: Option<Row>) {
    match row
    case None => forall r :: r in t.deliveries ==> t.deliveries[r].nextAt > now
    case Some(n) =>
      && n in t.deliveries
      && t.deliveries[n].nextAt <= now
      && forall r :: r in t.deliveries ==> t.deliveries[n].nextAt <= t.deliveries[r].nextAt
  }

  function Lease(t: Tables, row: Row, now: Time): Tables
    requires row in t.deliveries
  {
    t.(deliveries := t.deliveries[row := t.deliveries[row].(nextAt := now + 30.0)])
  }

  predicate Owns(t: Tables, row: Row, snapshot: Delivery, now: Time) {
    && row in t.deliveries
    && t.deliveries[row].epoch == snapshot.epoch
    && t.deliveries[row].attempts == snapshot.attempts
    && t.deliveries[row].expiresAt > now
  }

  function Finish(t: Tables, row: Row, snapshot: Delivery, retryAt: Option<Time>): Tables {
    if retryAt.None? || snapshot.attempts >= 2 then
      t.(deliveries := t.deliveries - {row})
    else if row in t.deliveries then
      var d := t.deliveries[row];
      t.(deliveries := t.deliveries[row := d.(attempts := d.attempts + 1, nextAt := retryAt.value)])
    else t
  }

  // ----- bounds and references survive each transaction

  lemma ShrinkKeepsValid(t: Tables, d: map<Row, Delivery>)
    requires Valid(t) && d.Keys <= t.deliveries.Keys
    requires forall r :: r in d ==> d[r].attempts <= 2
    ensures Valid(t.(deliveries := d))
  {
    Subset(d.Keys, t.deliveries.Keys);
  }

  lemma SizeAfter(m: map<SubId, Subscription>, id: SubId, s: Subscription)
    ensures |m[id := s]| == if id in m then |m| else |m| + 1
  {
    assert m[id := s].Keys == m.Keys + {id};
    assert |m| == |m.Keys| && |m[id := s]| == |m[id := s].Keys|;
  }

  lemma SubscribeKeepsValid(t: Tables, s: map<SubId, Subscription>)
    requires Valid(t) && t.subscriptions.Keys <= s.Keys && |s| <= MAX_SUBSCRIPTIONS
    ensures Valid(t.(subscriptions := s))
  {
  }

  lemma RegisterKeepsValid(t: Tables, id: SubId, material: string, preferences: set<Kind>, now: Time)
    requires Valid(t)
    ensures var r := Register(t, id, material, preferences, now); r.Registered? ==> Valid(r.tables)
  {
    var r := Register(t, id, material, preferences, now);
    if r.Registered? {
      SizeAfter(t.subscriptions, id, r.tables.subscriptions[id]);
      SubscribeKeepsValid(t, r.tables.subscriptions);
      ShrinkKeepsValid(t.(subscriptions := r.tables.subscriptions), r.tables.deliveries);
    }
  }

  lemma DeleteKeepsValid(t: Tables, id: SubId)
    requires Valid(t)
    ensures Valid(Delete(t, id))
  {
    Subset(Delete(t, id).subscriptions.Keys, t.subscriptions.Keys);
    Subset(Delete(t, id).deliveries.Keys, t.deliveries.Keys);
  }

  /** Filling adds only rows of `id` for listed targets, at most one each, and changes no row. */
  lemma {:induction false} FillAdds(deliveries: map<Row, Delivery>, id: Key, targets: seq<SubId>, d: Delivery)
    ensures var f := Fill(deliveries, id, targets, d);
      && (forall r :: r in f <==> r in deliveries || (r.event == id && r.sub in targets))
      && (forall r :: r in deliveries ==> f[r] == deliveries[r])
      && (forall r :: r in f && r !in deliveries ==> f[r] == d)
      && |f| <= |deliveries| + |targets|
  {
    if targets != [] {
      var most, last := targets[..|targets| - 1], targets[|targets| - 1];
      FillAdds(deliveries, id, most, d);
      assert targets == most + [last];
    }
  }

  lemma FinishKeepsValid(t: Tables, row: Row, snapshot: Delivery, retryAt: Option<Time>)
    requires Valid(t)
    requires row in t.deliveries ==> t.deliveries[row].attempts == snapshot.attempts
    ensures Valid(Finish(t, row, snapshot, retryAt))
  {
    var f := Finish(t, row, snapshot, retryAt);
    Subset(f.deliveries.Keys, t.deliveries.Keys);
  }
}
