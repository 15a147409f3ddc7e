/**
 What each transaction of the service worker does, said of the settings, the claim records and the delivery it moves;
 that an event pushed while delivery is enabled is shown; and how long its claim record lasts.
 */
module DeliveryOutcomes {
  import opened Basics
  import opened Recency
  import opened ServiceWorker
  import opened DeliveryProtocol

  // ----- settings

  /** Which requests are applied: beginning and enabling need the current generation, all but enabling need a next one. */
  ghost predicate IsApplied(current: Settings, request: Request) {
    match request
    case Begin(generation) => generation == Option.Some(current.generation) && current.generation < 9_007_199_254_740_991
    case Set(enabled, generation) =>
      if enabled then generation == Option.Some(current.generation) else current.generation < 9_007_199_254_740_991
  }

  /** Enabling keeps the generation, disabling and beginning disable under the next one. */
  lemma ChangesExactly(current: Settings, request: Request)
    ensures var next := Change(current, request);
      && (next.Some? <==> IsApplied(current, request))
      && (next.Some? ==>
            next.value == if request == Set(true, Option.Some(current.generation)) then Settings(true, current.generation)
                          else Settings(false, current.generation + 1))
  {
  }

  /** Only a record that says so enables delivery, and only a safe generation counts. */
  lemma ReadsExactly(saved: Saved)
    ensures Current(saved).enabled <==> saved.Saved? && saved.enabled
    ensures Current(saved).generation ==
      if saved.Saved? && saved.generation.Some? && -9_007_199_254_740_991 <= saved.generation.value <= 9_007_199_254_740_991
      then saved.generation.value else 0
  {
  }

  // ----- claim records

  /** The records that outlast `k`: those that expire later, or at the same time with a larger key. */
  function Outlasting(m: map<Key, Time>, k: Key): set<Key>
    requires k in m
  {
    set x | x in m && (m[x] > m[k] || (m[x] == m[k] && x > k))
  }

  /** The records before pruning: a claim lasts 30 days, and does not renew one that is there. */
  function Recorded(events: map<Key, Time>, key: Key, now: Time): map<Key, Time> {
    if key in events then events else events[key := now + 30.0 * 24.0 * 60.0 * 60.0 * 1000.0]
  }

  /** What remains is what has not expired and is among the 4096 that last longest. */
  lemma ClaimsExactly(events: map<Key, Time>, key: Key, now: Time)
    ensures var all, kept := Recorded(events, key, now), Claimed(events, key, now);
      && (forall k :: k in kept <==> k in all && all[k] > now && |Outlasting(all, k)| < 4096)
      && forall k :: k in kept ==> kept[k] == all[k]
  {
    var all := Recorded(events, key, now);
    forall k | k in all ensures Outlasting(all, k) == NewerThan(all, k) {
    }
  }

  /** A step that neither gives the key's claim back nor finds its record expired or the table full. */
  ghost predicate Spares(s: State, a: Action, key: Key)
    requires Enabled(s, a) && key in s.events
  {
    match a
    case Claim(_, now) => now < s.events[key] && |s.events| < 4096
    case Release(f) => s.flights[f].key != key
    case _ => true
  }

  lemma SparedStep(s: State, a: Action, key: Key)
    requires |s.log| > 0 && Enabled(s, a) && key in s.events && Spares(s, a, key)
    ensures key in Step(s, a).events && Step(s, a).events[key] == s.events[key]
  {
    hide Claimed;
    if a.Claim? {
      ClaimSpares(s.events, s.flights[a.f].key, a.now, key);
    }
  }

  lemma ClaimSpares(events: map<Key, Time>, claimed: Key, now: Time, key: Key)
    requires key in events && now < events[key] && |events| < 4096
    ensures key in Claimed(events, claimed, now) && Claimed(events, claimed, now)[key] == events[key]
  {
    hide KeepNewest;
    var all := if claimed in events then events else events[claimed := now + RETENTION_MS];
    assert all.Keys == events.Keys + {claimed} && |all.Keys| == |all| && |events.Keys| == |events|;
    KeepNewestSize(all, MAX_EVENTS);
  }

  /** Every step of the run spares the record as long as it is there. */
  ghost predicate Spared(s: State, actions: seq<Action>, key: Key)
    decreases |actions|
  {
    actions != [] ==>
      && |s.log| > 0 && Enabled(s, actions[0]) && (key in s.events ==> Spares(s, actions[0], key))
      && Spared(Step(s, actions[0]), actions[1..], key)
  }

  /** A claim record keeps its expiry until a step does not spare it, so until then its event is not claimed again. */
  lemma {:induction false} RecordLasts(s: State, actions: seq<Action>, s': State, key: Key)
    requires key in s.events && Leads(s, actions, s') && Spared(s, actions, key)
    ensures key in s'.events && s'.events[key] == s.events[key]
    decreases |actions|
  {
    if actions != [] {
      SparedStep(s, actions[0], key);
      RecordLasts(Step(s, actions[0]), actions[1..], s', key);
    }
  }

  /** A record counts as pruned exactly when a claim took it away, be it an older one or the claim's own. */
  lemma PrunedExactly(s: State, a: Action, key: Key)
    requires |s.log| > 0 && Enabled(s, a)
    ensures key in Step(s, a).pruned <==>
      key in s.pruned || (a.Claim? && key !in Step(s, a).events && (key in s.events || key == s.flights[a.f].key))
  {
  }

  // ----- a delivery

  /** Where one delivery stands after its next transaction; nothing else in the delivery changes. */
  lemma DeliveryOutcome(s: State, f: nat, now: Time, displayed: bool)
    requires |s.log| > 0 && f < |s.flights|
    ensures Enabled(s, Read(f)) ==>
      Step(s, Read(f)).flights[f].phase == if Current(s.saved).enabled then Claiming(|s.log| - 1) else Done(false)
    ensures Enabled(s, Claim(f, now)) ==>
      Step(s, Claim(f, now)).flights[f].phase ==
        if s.flights[f].key in s.events then Done(false) else Checking(s.flights[f].phase.since)
    ensures Enabled(s, Recheck(f)) && s.flights[f].phase.since < |s.log| ==>
      var since := s.flights[f].phase.since;
      Step(s, Recheck(f)).flights[f].phase ==
        if Current(s.saved).enabled && Current(s.saved).generation == s.log[since].generation then Showing(since, |s.log| - 1)
        else Done(false)
    ensures Enabled(s, Show(f, displayed)) ==>
      var s' := Step(s, Show(f, displayed));
      s'.flights[f].phase == (if displayed then Done(true) else Releasing)
      && Shown(s', s.flights[f].key) == Shown(s, s.flights[f].key) + if displayed then 1 else 0
    ensures Enabled(s, Release(f)) ==>
      var s' := Step(s, Release(f));
      s'.flights[f].phase == Done(false) && s'.events == s.events - {s.flights[f].key}
  {
  }

  /** An event pushed while delivery is enabled and not claimed before is shown, when no other transaction comes between. */
  lemma {:induction false} EnabledIsShown(s: State, key: Key, now: Time)
    requires Reachable(s) && Current(s.saved).enabled && key !in s.events
    ensures var f := |s.flights|;
      var actions := [Push(key), Read(f), Claim(f, now), Recheck(f), Show(f, true)];
      exists s' :: Leads(s, actions, s') && Shown(s', key) == Shown(s, key) + 1
  {
    LogNotEmpty(s);
    var f := |s.flights|;
    var s1 := Step(s, Push(key));
    var s2 := Step(s1, Read(f));
    var s3 := Step(s2, Claim(f, now));
    var s4 := Step(s3, Recheck(f));
    var s5 := Step(s4, Show(f, true));
    assert s2.flights[f] == Flight(key, Claiming(|s.log| - 1));
    assert s3.flights[f] == Flight(key, Checking(|s.log| - 1)) && s3.log == s.log && s3.saved == s.saved;
    assert s4.flights[f] == Flight(key, Showing(|s.log| - 1, |s.log| - 1));
    FiveSteps(s, s1, s2, s3, s4, s5, Push(key), Read(f), Claim(f, now), Recheck(f), Show(f, true));
  }

  lemma LogNotEmpty(s: State)
    requires Reachable(s)
    ensures |s.log| > 0 && s.log[|s.log| - 1] == Current(s.saved)
  {
    ReachableInv(s);
  }

  lemma {:induction false} FiveSteps(s: State, s1: State, s2: State, s3: State, s4: State, s5: State,
                                     a: Action, b: Action, c: Action, d: Action, e: Action)
    requires |s.log| > 0 && Enabled(s, a) && s1 == Step(s, a) && |s1.log| > 0 && Enabled(s1, b) && s2 == Step(s1, b)
    requires |s2.log| > 0 && Enabled(s2, c) && s3 == Step(s2, c) && |s3.log| > 0 && Enabled(s3, d) && s4 == Step(s3, d)
    requires |s4.log| > 0 && Enabled(s4, e) && s5 == Step(s4, e)
    ensures Leads(s, [a, b, c, d, e], s5)
  {
    hide Step, Enabled;
    assert [a, b, c, d, e][1..] == [b, c, d, e] && [b, c, d, e][1..] == [c, d, e] && [c, d, e][1..] == [d, e];
    assert [d, e][1..] == [e] && [e][1..] == [];
    assert Leads(s5, [], s5);
    assert Leads(s4, [e], s5);
    assert Leads(s3, [d, e], s5);
    assert Leads(s2, [c, d, e], s5);
    assert Leads(s1, [b, c, d, e], s5);
  }
}
