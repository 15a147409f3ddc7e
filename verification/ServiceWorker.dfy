/**
 The notification service worker. Every database transaction is one step; deliveries started by push
 events interleave with each other and with settings requests from any number of tabs.
 */
module ServiceWorker {
  import opened Basics
  import opened Recency

  const MAX_EVENTS: nat := 4096
  const RETENTION_MS: real := 2592000000.0
  const MAX_SAFE_INTEGER: int := 0x1F_FFFF_FFFF_FFFF

  // ----- settings

  datatype Settings = Settings(enabled: bool, generation: int)

  /** The stored record as found: it may be absent, or hold no usable generation. */
  datatype Saved = Absent | Saved(enabled: bool, generation: Option<int>)

  predicate IsSafe(n: int) { -MAX_SAFE_INTEGER <= n <= MAX_SAFE_INTEGER }

  function Current(saved: Saved): Settings {
    match saved
    case Absent => Settings(false, 0)
    case Saved(enabled, generation) =>
      Settings(enabled, if generation.Some? && IsSafe(generation.value) then generation.value else 0)
  }

  /** A tab's request; a generation that is no safe integer is `None`. */
  datatype Request = Begin(generation: Option<int>) | Set(enabled: bool, generation: Option<int>)

  /** The new settings, or `None` when the request is refused. */
  function Change(current: Settings, request: Request): Option<Settings> {
    var begins := request.Begin?;
    var enables := request.Set? && request.enabled;
    if (begins || enables) && request.generation != Some(current.generation) then None
    else if begins || !enables then
      if current.generation >= MAX_SAFE_INTEGER then None
      else Some(Settings(false, current.generation + 1))
    else Some(Settings(true, current.generation))
  }

  // ----- the event records, each with its expiry

  function Pruned(events: map<Key, Time>, now: Time): map<Key, Time> {
    var kept := KeepNewest(events, MAX_EVENTS);
    map k | k in kept && kept[k] > now :: kept[k]
  }

  function Claimed(events: map<Key, Time>, key: Key, now: Time): map<Key, Time> {
    Pruned(if key in events then events else events[key := now + RETENTION_MS], now)
  }

  // ----- the database, changed in place

  class Database {
    var delivery: Saved
    var events: map<Key, Time>

    method ReadSettings() returns (current: Settings)
      ensures current == Current(delivery)
    {
      current := Current(delivery);
    }

    method ChangeSettings(request: Request) returns (result: Settings, applied: bool)
      modifies this`delivery
      ensures var next := Change(Current(old(delivery)), request);
        && applied == next.Some?
        && result == Current(delivery)
        && delivery == if applied then Saved(next.value.enabled, Option.Some(next.value.generation)) else old(delivery)
    {
      var current := Current(delivery);
      var next := Change(current, request);
      if next.Some? {
        delivery := Saved(next.value.enabled, Option.Some(next.value.generation));
      }
      result, applied := if next.Some? then next.value else current, next.Some?;
      assert IsSafe(current.generation);
    }

    /** Walk the expiry index from its oldest end while there is an excess or the record has expired. */
    method PruneEvents(now: Time)
      modifies this`events
      ensures events == Pruned(old(events), now)
    {
      var excess := |events| - MAX_EVENTS;
      while |events| > 0
        invariant Pruned(events, now) == Pruned(old(events), now)
        invariant excess == |events| - MAX_EVENTS || (excess <= 0 && |events| <= MAX_EVENTS)
        decreases |events|
      {
        var k := Oldest();
        if excess > 0 || events[k] <= now {
          DropStep(events, k, now);
          RemovalShrinks(events, k);
          events := events - {k};
          excess := excess - 1;
        } else {
          NothingToPrune(events, k, now);
          return;
        }
      }
    }

    method Oldest() returns (k: Key)
      requires |events| > 0
      ensures IsOldest(events, k)
    {
      ghost var witnessed := OldestExists(events);
      k :| k in events && forall x :: x in events && x != k ==> Newer(x, events[x], k, events[k]);
    }

    method ClaimEvent(key: Key, now: Time) returns (claimed: bool)
      modifies this`events
      ensures claimed == (key !in old(events))
      ensures events == Claimed(old(events), key, now)
    {
      claimed := key !in events;
      if claimed {
        events := events[key := now + RETENTION_MS];
      }
      PruneEvents(now);
    }

    method ReleaseClaim(key: Key)
      modifies this`events
      ensures events == old(events) - {key}
    {
      events := events - {key};
    }
  }

  lemma RemovalShrinks(m: map<Key, Time>, k: Key)
    requires k in m
    ensures |m - {k}| == |m| - 1
  {
    assert (m - {k}).Keys == m.Keys - {k};
  }

  lemma DropStep(m: map<Key, Time>, k: Key, now: Time)
    requires IsOldest(m, k) && (|m| > MAX_EVENTS || m[k] <= now)
    ensures Pruned(m - {k}, now) == Pruned(m, now)
  {
    if |m| > MAX_EVENTS {
      DropOldest(m, k, MAX_EVENTS);
    } else {
      RemovalShrinks(m, k);
      KeepNewestSize(m, MAX_EVENTS);
      KeepNewestSize(m - {k}, MAX_EVENTS);
    }
  }

  lemma NothingToPrune(m: map<Key, Time>, k: Key, now: Time)
    requires IsOldest(m, k) && |m| <= MAX_EVENTS && m[k] > now
    ensures Pruned(m, now) == m
  {
    KeepNewestSize(m, MAX_EVENTS);
  }
}
