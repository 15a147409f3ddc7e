/**
 The service object around the store. `history` is the protocol state it stands for: every method is
 one protocol step, so what PushSafety proves of the protocol holds of this object.
 */
module PushService {
  import opened Basics
  import opened Recency
  import opened PushTables
  import opened PushProtocol
  import Outcomes = PushOutcomes
  import Storage = PushStore

  const TESTS_A_MINUTE := 10

  datatype TestResult = Unregistered | RateLimited | Accepted

  /** The times left when those a minute old or older are taken off the front. */
  function Lately(times: seq<Time>, now: Time): (left: seq<Time>)
    ensures |left| <= |times|
  {
    if times == [] || now - times[0] < 60.0 then times else Lately(times[1..], now)
  }

  predicate Ascending(times: seq<Time>) { forall i, j :: 0 <= i < j < |times| ==> times[i] <= times[j] }

  lemma LatestLast(times: seq<Time>, now: Time)
    requires Ascending(times) && forall t :: t in times ==> t <= now
    ensures Ascending(times + [now]) && forall t :: t in times + [now] ==> t <= now
  {
    forall i, j | 0 <= i < j < |times + [now]| ensures (times + [now])[i] <= (times + [now])[j] {
      assert times[i] in times;
    }
  }

  class PushService {
    const store: Storage.PushStore
    var available: bool
    var connected: bool
    var epoch: Epoch
    const inflight: array<Option<Flight>>
    var testTimes: seq<Time>             // when tests of any subscription were accepted lately
    ghost var history: System

    ghost predicate Valid()
      reads this, store, inflight
    {
      && history.tables == store.Tables()
      && history.available == available
      && history.connected == connected
      && history.epoch == epoch
      && history.workers == inflight[..]
      && |testTimes| <= TESTS_A_MINUTE && Ascending(testTimes) && (forall t :: t in testTimes ==> t <= history.clock)
    }

    constructor (first: Epoch, ghost clock: Time)
      ensures Valid() && fresh(store) && fresh(inflight)
      ensures history == Initial(2, first, clock)
    {
      store := new Storage.PushStore();
      inflight := new Option<Flight>[2](i => None);
      available, connected, epoch, testTimes := true, false, first, [];
      history := Initial(2, first, clock);
      new;
      assert inflight[..] == Initial(2, first, clock).workers;
    }

    /** A restart: a new service object over the store that the last one left behind. */
    constructor Reopen(store: Storage.PushStore, newEpoch: Epoch, ghost before: System)
      requires store.Tables() == before.tables && IsFresh(before, newEpoch) && |before.workers| == 2
      modifies store
      ensures Valid() && this.store == store && fresh(inflight)
      ensures history == Step(before, Restart(newEpoch))
    {
      this.store := store;
      inflight := new Option<Flight>[2](i => None);
      available, connected, epoch, testTimes := true, false, newEpoch, [];
      history := Step(before, Restart(newEpoch));
      new;
      store.RetireEpochs(newEpoch);
      assert inflight[..] == history.workers;
    }

    /** `_cancel_subscription`: mark the sends of one subscription. */
    method CancelSubscription(id: SubId)
      modifies inflight
      ensures inflight[..] == Cancel(old(inflight[..]), (f: Flight) => f.row.sub == id)
    {
      for i := 0 to inflight.Length
        modifies inflight
        invariant inflight[i..] == old(inflight[i..])
        invariant inflight[..i] == Cancel(old(inflight[..]), (f: Flight) => f.row.sub == id)[..i]
      {
        if inflight[i].Some? && inflight[i].value.row.sub == id {
          inflight[i] := Some(inflight[i].value.(cancelled := true));
        }
      }
    }

    method Register(id: SubId, material: string, preferences: set<Kind>, now: Time) returns (r: Registration)
      requires Valid() && Enabled(history, Action.Register(id, material, preferences, now))
      modifies this, store, inflight
      ensures Valid() && history == Step(old(history), Action.Register(id, material, preferences, now))
    {
      r := store.Register(id, material, preferences, now);
      if r.Registered? {
        CancelSubscription(id);
      }
      history := Step(history, Action.Register(id, material, preferences, now));
    }

    method Delete(id: SubId)
      requires Valid()
      modifies this, store, inflight
      ensures Valid() && history == Step(old(history), Unregister(id))
    {
      CancelSubscription(id);
      store.Delete(id);
      history := Step(history, Unregister(id));
    }

    /** `_retire`: cancel every send of a source, then drop all rows that are not of the new epoch. */
    method Retire(newEpoch: Epoch)
      modifies this`epoch, store, inflight
      ensures epoch == newEpoch
      ensures inflight[..] == Cancel(old(inflight[..]), (f: Flight) => f.snapshot.epoch != TestEpoch)
      ensures store.Tables() == RetireEpochs(old(store.Tables()), newEpoch)
    {
      for i := 0 to inflight.Length
        modifies inflight
        invariant inflight[i..] == old(inflight[i..])
        invariant inflight[..i] == Cancel(old(inflight[..]), (f: Flight) => f.snapshot.epoch != TestEpoch)[..i]
      {
        if inflight[i].Some? && inflight[i].value.snapshot.epoch != TestEpoch {
          inflight[i] := Some(inflight[i].value.(cancelled := true));
        }
      }
      epoch := newEpoch;
      store.RetireEpochs(newEpoch);
    }

    method Connect(newEpoch: Epoch)
      requires Valid() && Enabled(history, Action.Connect(newEpoch))
      modifies this, store, inflight
      ensures Valid() && history == Step(old(history), Action.Connect(newEpoch))
    {
      Retire(newEpoch);
      connected := true;
      history := Step(history, Action.Connect(newEpoch));
    }

    method Disconnect(newEpoch: Epoch)
      requires Valid() && Enabled(history, Action.Disconnect(newEpoch))
      modifies this, store, inflight
      ensures Valid() && history == Step(old(history), Action.Disconnect(newEpoch))
    {
      connected := false;
      Retire(newEpoch);
      history := Step(history, Action.Disconnect(newEpoch));
    }

    /** The subscriptions that want this kind, in id order. */
    method Targets(kind: Kind) returns (targets: seq<SubId>)
      ensures IsTargets(store.Tables(), kind, targets)
    {
      targets := [];
      var left := set x | x in store.subscriptions && kind in store.subscriptions[x].preferences;
      while left != {}
        invariant left <= store.subscriptions.Keys
        invariant forall x :: x in targets || x in left <==>
          x in store.subscriptions && kind in store.subscriptions[x].preferences
        invariant forall x, y :: x in targets && y in left ==> x < y
        invariant forall i, j :: 0 <= i < j < |targets| ==> targets[i] < targets[j]
        decreases |left|
      {
        ghost var least := Least(left);
        var x :| x in left && forall y :: y in left ==> x <= y;
        forall i | 0 <= i < |targets| ensures targets[i] < x {
          assert targets[i] in targets;
        }
        targets, left := targets + [x], left - {x};
      }
    }

    /** A source event is queued for its targets under the current epoch, or not at all without a source. */
    method Queue(key: Key, payload: Payload, now: Time)
      requires Valid() && InTime(history, now)
      modifies this, store
      ensures Valid()
      ensures old(available && connected) ==>
        exists targets :: (
          && IsTargets(old(store.Tables()), payload.kind, targets)
          && history == Step(old(history), Action.Queue(key, payload, targets, now)))
      ensures !old(available && connected) ==> history == old(history)
    {
      if !available || !connected {
        return;
      }
      var targets := Targets(payload.kind);
      assert Enabled(history, Action.Queue(key, payload, targets, now));
      var outcome := store.Enqueue(key, payload, targets, now, epoch);
      history := Step(history, Action.Queue(key, payload, targets, now));
    }

    /** A requested test: refused for an unknown subscription, at full capacity, or beyond its two rate limits. */
    method RequestTest(key: Key, payload: Payload, sub: SubId, now: Time) returns (result: TestResult)
      requires Valid() && InTime(history, now)
      modifies this, store
      ensures Valid()
      ensures result == Unregistered <==> sub !in old(store.subscriptions)
      ensures result == Unregistered ==> history == old(history) && testTimes == old(testTimes)
      ensures result != Unregistered ==>
        var recent := Lately(old(testTimes), now);
        && history == Step(old(history), Action.SendTest(key, payload, sub, |recent| < TESTS_A_MINUTE, now))
        && testTimes == if result == Accepted then recent + [now] else recent
      ensures result == Accepted ==> forall t :: t in testTimes ==> now - 60.0 < t <= now
    {
      hide Step, Enqueue, Expire, Lately;
      if sub !in store.subscriptions {
        return Unregistered;
      }
      ForgetOldTests(now);
      ghost var admitted := |testTimes| < TESTS_A_MINUTE;
      TestEffect(history, key, payload, sub, admitted, now);
      history := Step(history, Action.SendTest(key, payload, sub, admitted, now));
      var room := store.HasDeliveryCapacity(now);
      if !room || |testTimes| >= TESTS_A_MINUTE {
        return RateLimited;
      }
      var allowed := store.AllowTest(sub, now);
      if !allowed {
        return RateLimited;
      }
      LatestLast(testTimes, now);
      testTimes := testTimes + [now];
      var outcome := store.Enqueue(key, payload, [sub], now, TestEpoch);
      result := Accepted;
    }

    method ForgetOldTests(now: Time)
      requires Ascending(testTimes)
      modifies this`testTimes
      ensures testTimes == Lately(old(testTimes), now) && Ascending(testTimes)
      ensures forall t :: t in testTimes ==> t in old(testTimes) && now - 60.0 < t
    {
      while testTimes != [] && now - testTimes[0] >= 60.0
        invariant Lately(testTimes, now) == Lately(old(testTimes), now) && Ascending(testTimes)
        invariant forall t :: t in testTimes ==> t in old(testTimes)
        decreases |testTimes|
        modifies this`testTimes
      {
        testTimes := testTimes[1..];
      }
      forall t | t in testTimes ensures now - 60.0 < t {
        assert testTimes[0] <= t;
      }
    }

    static lemma EnqueuedEffect(h: System, key: Key, payload: Payload, sub: SubId, now: Time)
      ensures var s := Enqueued(h, key, payload, [sub], now, TestEpoch);
        && s.available == h.available && s.connected == h.connected && s.epoch == h.epoch && s.workers == h.workers && s.clock == now
        && s.tables == Enqueue(h.tables, key, payload, [sub], now, TestEpoch).1
    {
      hide Enqueue;
    }

    /** What a test step makes of the protocol state. */
    static lemma TestEffect(h: System, key: Key, payload: Payload, sub: SubId, admitted: bool, now: Time)
      requires Enabled(h, Action.SendTest(key, payload, sub, admitted, now))
      ensures var s := Step(h, Action.SendTest(key, payload, sub, admitted, now));
        var live := Expire(h.tables, now);
        var (allowed, noted) := AllowTest(live, sub, now);
        && s.available == h.available && s.connected == h.connected && s.epoch == h.epoch && s.workers == h.workers && s.clock == now
        && s.tables ==
             if |live.deliveries| >= MAX_DELIVERIES || !admitted || !allowed then live
             else Enqueue(noted, key, payload, [sub], now, TestEpoch).1
    {
      hide Enqueue, AllowTest, Enqueued;
      var live := Expired(h, now);
      EnqueuedEffect(live.(tables := AllowTest(live.tables, sub, now).1), key, payload, sub, now);
    }

    /** `_worker` and `_deliver` up to the send: a row is leased, and dropped unless someone still wants it. */
    method Poll(w: nat, now: Time) returns (sending: bool)
      requires Valid() && available && w < inflight.Length && inflight[w].None? && InTime(history, now)
      modifies this, store, inflight
      ensures Valid()
      ensures exists next :: (
        && IsNext(Expire(old(store.Tables()), now), now, next)
        && history == Step(old(history), Action.Poll(w, next, now)))
      ensures sending == inflight[w].Some?
    {
      var r := store.NextDelivery(now, true);
      if r.None? {
        history := Step(history, Action.Poll(w, None, now));
        return false;
      }
      var c := r.value;
      sending := c.row.sub in store.subscriptions && c.delivery.epoch in {TestEpoch, epoch}
        && (c.delivery.payload.kind == Test || c.delivery.payload.kind in store.subscriptions[c.row.sub].preferences);
      history := Step(history, Action.Poll(w, Some(c.row), now));
      if sending {
        inflight[w] := Some(Flight(c.row, c.delivery, now, false));
      } else {
        store.Finish(c.row, c.delivery, None);
      }
    }

    method OwnsDelivery(f: Flight, now: Time) returns (owned: bool)
      ensures owned == (available && f.snapshot.epoch in {TestEpoch, epoch} && Owns(store.Tables(), f.row, f.snapshot, now))
    {
      owned := store.OwnsDelivery(f.row, f.snapshot, now);
      owned := available && f.snapshot.epoch in {TestEpoch, epoch} && owned;
    }

    static lemma CompleteEffect(h: System, w: nat, result: SendResult, n1: Time, n2: Time, n3: Time)
      requires Enabled(h, Action.Complete(w, result, n1, n2, n3))
      ensures var f := h.workers[w].value;
        Step(h, Action.Complete(w, result, n1, n2, n3))
          == h.(tables := Settled(h, f, result, n1, n2, n3), clock := n3, workers := h.workers[w := None])
    {
    }

    /** `_deliver` after its await; `n1`, `n2` and `n3` are its clock readings in order. */
    method Complete(w: nat, result: SendResult, n1: Time, n2: Time, n3: Time)
      requires Valid() && w < inflight.Length && Enabled(history, Action.Complete(w, result, n1, n2, n3))
      modifies this, store, inflight
      ensures Valid() && history == Step(old(history), Action.Complete(w, result, n1, n2, n3))
      ensures Outcomes.Completes(old(history), history.tables, old(history).workers[w].value, result, n1, n2, n3)
    {
      hide Step, Backoff, PushTables.Delete, Finish, Owns, Outcomes.Completes;
      Outcomes.CompletionOutcome(history, w, result, n1, n2, n3);
      var f := inflight[w].value;
      inflight[w] := None;
      ghost var after := Step(history, Action.Complete(w, result, n1, n2, n3));
      CompleteEffect(history, w, result, n1, n2, n3);
      var retryAt := None;
      var stale := false;
      match result {
        case Status(code) =>
          var owned := OwnsDelivery(f, n1);
          if !owned {
            stale := true;
          } else if code in {404, 410} {
            store.Delete(f.row.sub);
          } else if code == 429 || code >= 500 {
            retryAt := Some(n2 + Backoff(f.snapshot.attempts));
          }
        case Broken => retryAt := Some(n2 + Backoff(f.snapshot.attempts));
        case Cancelled =>
        case Invalid =>
      }
      var still := OwnsDelivery(f, n3);
      if !stale && still {
        store.Finish(f.row, f.snapshot, retryAt);
      }
      history := after;
    }

    method Fail()
      requires Valid() && available
      modifies this, inflight
      ensures Valid() && history == Step(old(history), Action.Fail)
    {
      available, connected := false, false;
      for i := 0 to inflight.Length
        modifies inflight
        invariant forall k :: 0 <= k < i ==> inflight[k] == None
      {
        inflight[i] := None;
      }
      history := Step(history, Action.Fail);
    }
  }

  lemma {:induction false} Least(s: set<SubId>) returns (m: SubId)
    requires |s| > 0
    ensures m in s && forall y :: y in s ==> m <= y
    decreases |s|
  {
    m :| m in s;
    var rest := s - {m};
    if |rest| > 0 {
      var other := Least(rest);
      m := if m < other then m else other;
    }
    assert forall y :: y in s ==> y in rest || m <= y;
  }
}
