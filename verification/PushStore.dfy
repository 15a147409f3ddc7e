/** The store itself: tables changed in place, each transaction tied to its function in PushTables. */
module PushStore {
  import opened Basics
  import opened Recency
  import opened PushTables

  datatype Claimed = Claimed(row: Row, delivery: Delivery)

  class PushStore {
    var subscriptions: map<SubId, Subscription>
    var events: map<Key, Time>
    var deliveries: map<Row, Delivery>

    ghost function Tables(): Tables
      reads this
    {
      PushTables.Tables(subscriptions, events, deliveries)
    }

    constructor ()
      ensures Tables() == EMPTY
    {
      subscriptions, events, deliveries := map[], map[], map[];
    }

    method Register(id: SubId, material: string, preferences: set<Kind>, now: Time) returns (r: Registration)
      modifies this
      ensures r == PushTables.Register(old(Tables()), id, material, preferences, now)
      ensures Tables() == if r.Registered? then r.tables else old(Tables())
    {
      if id in subscriptions && subscriptions[id].material != material {
        return KeysConflict;
      }
      if id !in subscriptions && |subscriptions| >= MAX_SUBSCRIPTIONS {
        return LimitReached;
      }
      var lastTestAt := if id in subscriptions then subscriptions[id].lastTestAt else 0.0;
      subscriptions := subscriptions[id := Subscription(material, preferences, now, lastTestAt)];
      deliveries := WithoutSub(deliveries, id);
      r := Registered(PushTables.Tables(subscriptions, events, deliveries));
    }

    method Delete(id: SubId)
      modifies this
      ensures Tables() == PushTables.Delete(old(Tables()), id)
    {
      subscriptions := subscriptions - {id};
      deliveries := WithoutSub(deliveries, id);
    }

    method AllowTest(id: SubId, now: Time) returns (allowed: bool)
      modifies this`subscriptions
      ensures (allowed, Tables()) == PushTables.AllowTest(old(Tables()), id, now)
    {
      allowed := id in subscriptions && subscriptions[id].lastTestAt <= now - 60.0;
      if allowed {
        subscriptions := subscriptions[id := subscriptions[id].(lastTestAt := now)];
      }
    }

    method ExpireDeliveries(now: Time)
      modifies this`deliveries
      ensures Tables() == Expire(old(Tables()), now)
    {
      deliveries := map r | r in deliveries && deliveries[r].expiresAt > now :: deliveries[r];
    }

    /** True when the id was not yet stored, even if pruning drops it again at once. */
    method Remember(id: Key, now: Time) returns (inserted: bool)
      modifies this`events
      ensures inserted == (id !in old(events))
      ensures events == PushTables.Remember(old(events), id, now)
    {
      inserted := id !in events;
      if inserted {
        events := events[id := now];
      }
      events := KeepNewest(events, MAX_EVENTS);
    }

    method HasDeliveryCapacity(now: Time) returns (room: bool)
      modifies this`deliveries
      ensures Tables() == Expire(old(Tables()), now)
      ensures room == (|deliveries| < MAX_DELIVERIES)
    {
      ExpireDeliveries(now);
      room := |deliveries| < MAX_DELIVERIES;
    }

    /** One transaction: a broken reference raised inside the loop undoes all of it. */
    method Enqueue(id: Key, payload: Payload, targets: seq<SubId>, now: Time, epoch: Epoch) returns (outcome: Outcome)
      modifies this
      ensures (outcome, Tables()) == PushTables.Enqueue(old(Tables()), id, payload, targets, now, epoch)
    {
      if payload.encodedBytes > MAX_PAYLOAD_BYTES {
        return Oversized;
      }
      var savedEvents, savedDeliveries := events, deliveries;
      ExpireDeliveries(now);
      ghost var live := Tables();
      var inserted := Remember(id, now);
      if !inserted {
        return Duplicate;
      }
      var available := if |deliveries| >= MAX_DELIVERIES then 0 else MAX_DELIVERIES - |deliveries|;
      var chosen := if |targets| <= available then targets else targets[..available];
      assert chosen == Selected(live, targets);
      var complete := InsertRows(id, chosen, Fresh(payload, now, epoch));
      if !complete {
        events, deliveries := savedEvents, savedDeliveries;
        return BrokenReference;
      }
      outcome := Queued;
    }

    /** False at the first target that has neither a subscription nor a row: the insert is refused. */
    method InsertRows(id: Key, chosen: seq<SubId>, d: Delivery) returns (complete: bool)
      modifies this`deliveries
      ensures complete == forall x :: x in chosen ==> x in subscriptions || Row(id, x) in old(deliveries)
      ensures complete ==> deliveries == Fill(old(deliveries), id, chosen, d)
    {
      for i := 0 to |chosen|
        invariant deliveries == Fill(old(deliveries), id, chosen[..i], d)
        invariant forall x :: x in chosen[..i] ==> x in subscriptions || Row(id, x) in old(deliveries)
      {
        assert chosen[..i + 1][..i] == chosen[..i];
        FillAdds(old(deliveries), id, chosen[..i], d);
        var row := Row(id, chosen[i]);
        if row !in deliveries {
          if chosen[i] !in subscriptions {
            return false;
          }
          deliveries := deliveries[row := d];
        }
      }
      assert chosen[..|chosen|] == chosen;
      complete := true;
    }

    method RetireEpochs(epoch: Epoch)
      modifies this`deliveries
      ensures Tables() == PushTables.RetireEpochs(old(Tables()), epoch)
    {
      deliveries := map r | r in deliveries && deliveries[r].epoch in {epoch, TestEpoch} :: deliveries[r];
    }

    /** The row is returned as selected, before the lease moves its due time. */
    method NextDelivery(now: Time, claim: bool) returns (r: Option<Claimed>)
      modifies this`deliveries
      ensures var live := Expire(old(Tables()), now);
        match r
        case None => IsNext(live, now, None) && Tables() == live
        case Some(c) =>
          && IsNext(live, now, Some(c.row))
          && c.delivery == live.deliveries[c.row]
          && Tables() == if claim then Lease(live, c.row, now) else live
    {
      ExpireDeliveries(now);
      if forall x :: x in deliveries ==> deliveries[x].nextAt > now {
        return None;
      }
      var row := FirstDue(now);
      r := Some(Claimed(row, deliveries[row]));
      if claim {
        deliveries := deliveries[row := deliveries[row].(nextAt := now + 30.0)];
      }
    }

    method FirstDue(now: Time) returns (best: Row)
      requires exists x :: x in deliveries && deliveries[x].nextAt <= now
      ensures IsNext(Tables(), now, Some(best))
    {
      best :| best in deliveries && deliveries[best].nextAt <= now;
      var left := deliveries.Keys;
      while left != {}
        invariant left <= deliveries.Keys && best in deliveries && deliveries[best].nextAt <= now
        invariant forall x :: x in deliveries && x !in left ==> deliveries[best].nextAt <= deliveries[x].nextAt
        decreases |left|
      {
        var x :| x in left;
        left := left - {x};
        if deliveries[x].nextAt < deliveries[best].nextAt {
          best := x;
        }
      }
    }

    method OwnsDelivery(row: Row, snapshot: Delivery, now: Time) returns (owned: bool)
      ensures owned == Owns(Tables(), row, snapshot, now)
    {
      if row !in deliveries {
        return false;
      }
      var current := deliveries[row];
      owned := current.epoch == snapshot.epoch && current.attempts == snapshot.attempts && current.expiresAt > now;
    }

    method Finish(row: Row, snapshot: Delivery, retryAt: Option<Time>)
      modifies this`deliveries
      ensures Tables() == PushTables.Finish(old(Tables()), row, snapshot, retryAt)
    {
      if retryAt.None? || snapshot.attempts >= 2 {
        deliveries := deliveries - {row};
      } else if row in deliveries {
        var d := deliveries[row];
        deliveries := deliveries[row := d.(attempts := d.attempts + 1, nextAt := retryAt.value)];
      }
    }
  }
}
