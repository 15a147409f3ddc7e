/**
 Deliveries under way in the service worker: read settings, claim the event, read settings again,
 show, and give the claim back when showing fails. `log`, `shown` and `pruned` record what happened.
 */
module DeliveryProtocol {
  import opened Basics
  import opened Recency
  import opened ServiceWorker

  /** `since` and `until` are positions in the settings log of the first and the second read. */
  datatype Phase =
    | Reading
    | Claiming(since: nat)
    | Checking(since: nat)
    | Showing(since: nat, until: nat)
    | Releasing
    | Done(wasShown: bool)

  datatype Flight = Flight(key: Key, phase: Phase)

  datatype State = State(
    saved: Saved,
    events: map<Key, Time>,
    flights: seq<Flight>,
    log: seq<Settings>,         // the settings in force, one entry for each change
    shown: map<Key, nat>,       // notifications shown for each key
    pruned: set<Key>)           // keys whose claim record pruning has removed

  datatype Action =
    | Push(key: Key)
    | Read(f: nat)
    | Claim(f: nat, now: Time)
    | Recheck(f: nat)
    | Show(f: nat, displayed: bool)
    | Release(f: nat)
    | Tab(request: Request)

  function Initial(saved: Saved, events: map<Key, Time>): State {
    State(saved, events, [], [Current(saved)], map[], {})
  }

  predicate Enabled(s: State, a: Action) {
    match a
    case Push(_) => true
    case Read(f) => f < |s.flights| && s.flights[f].phase.Reading?
    case Claim(f, _) => f < |s.flights| && s.flights[f].phase.Claiming?
    case Recheck(f) => f < |s.flights| && s.flights[f].phase.Checking?
    case Show(f, _) => f < |s.flights| && s.flights[f].phase.Showing?
    case Release(f) => f < |s.flights| && s.flights[f].phase.Releasing?
    case Tab(_) => true
  }

  function Move(s: State, f: nat, phase: Phase): State
    requires f < |s.flights|
  {
    s.(flights := s.flights[f := s.flights[f].(phase := phase)])
  }

  function Shown(s: State, key: Key): nat {
    if key in s.shown then s.shown[key] else 0
  }

  function Step(s: State, a: Action): State
    requires Enabled(s, a) && |s.log| > 0
  {
    match a
    case Push(key) => s.(flights := s.flights + [Flight(key, Reading)])
    case Read(f) => Move(s, f, if Current(s.saved).enabled then Claiming(|s.log| - 1) else Done(false))
    case Claim(f, now) =>
      var key := s.flights[f].key;
      var fresh' := key !in s.events;
      var events := Claimed(s.events, key, now);
      var gone := (set k | k in s.events && k !in events) + (if fresh' && key !in events then {key} else {});
      Move(s, f, if fresh' then Checking(s.flights[f].phase.since) else Done(false))
        .(events := events, pruned := s.pruned + gone)
    case Recheck(f) =>
      var since := s.flights[f].phase.since;
      var current := Current(s.saved);
      Move(s, f, if since < |s.log| && current.enabled && current.generation == s.log[since].generation
                 then Showing(since, |s.log| - 1) else Done(false))
    case Show(f, displayed) =>
      if displayed then
        Move(s, f, Done(true)).(shown := s.shown[s.flights[f].key := Shown(s, s.flights[f].key) + 1])
      else Move(s, f, Releasing)
    case Release(f) => Move(s, f, Done(false)).(events := s.events - {s.flights[f].key})
    case Tab(request) =>
      var next := Change(Current(s.saved), request);
      if next.None? then s
      else s.(saved := Saved(next.value.enabled, Option.Some(next.value.generation)), log := s.log + [next.value])
  }

  // ----- the invariant

  /** A change either enables under the same generation or disables under the next one. */
  predicate Follows(a: Settings, b: Settings) {
    b == Settings(true, a.generation) || b == Settings(false, a.generation + 1)
  }

  predicate LogOk(s: State) {
    && |s.log| > 0
    && s.log[|s.log| - 1] == Current(s.saved)
    && forall i :: 0 < i < |s.log| ==> Follows(s.log[i - 1], s.log[i])
  }

  /** Delivery was enabled at each moment from position `since` to position `until`. */
  predicate EnabledThroughout(log: seq<Settings>, since: nat, until: nat) {
    since <= until < |log| && forall i :: since <= i <= until ==> log[i].enabled
  }

  predicate PhaseOk(s: State, p: Phase) {
    match p
    case Claiming(since) => since < |s.log| && s.log[since].enabled
    case Checking(since) => since < |s.log| && s.log[since].enabled
    case Showing(since, until) => EnabledThroughout(s.log, since, until)
    case _ => true
  }

  /** The flight claimed its event and has neither shown it nor given the claim back. */
  predicate Holds(s: State, f: int, key: Key) {
    0 <= f < |s.flights| && s.flights[f].key == key
    && (s.flights[f].phase.Checking? || s.flights[f].phase.Showing? || s.flights[f].phase.Releasing?)
  }

  ghost predicate KeyOk(s: State, key: Key) {
    && (forall f, g :: Holds(s, f, key) && Holds(s, g, key) ==> f == g)
    && (forall f :: Holds(s, f, key) ==> key in s.events && Shown(s, key) == 0)
    && (Shown(s, key) > 0 ==> key in s.events)
    && Shown(s, key) <= 1
  }

  ghost predicate Inv(s: State) {
    && LogOk(s)
    && (forall f :: 0 <= f < |s.flights| ==> PhaseOk(s, s.flights[f].phase))
    && (forall key: Key :: key !in s.pruned ==> KeyOk(s, key))
  }

  // ----- generations

  lemma {:induction false} GenerationsGrow(log: seq<Settings>, i: nat, j: nat)
    requires i <= j < |log| && forall k :: 0 < k < |log| ==> Follows(log[k - 1], log[k])
    ensures log[i].generation <= log[j].generation
    ensures log[i].generation == log[j].generation && log[i].enabled ==> EnabledThroughout(log, i, j)
    decreases j - i
  {
    if i < j {
      GenerationsGrow(log, i, j - 1);
      assert Follows(log[j - 1], log[j]);
    }
  }

  lemma ChangeFollows(current: Settings, request: Request)
    ensures var next := Change(current, request); next.Some? ==> Follows(current, next.value)
  {
  }

  lemma TabStep(s: State, request: Request)
    requires Inv(s)
    ensures Inv(Step(s, Tab(request)))
  {
    var s' := Step(s, Tab(request));
    ChangeFollows(Current(s.saved), request);
    assert forall f, key :: Holds(s', f, key) <==> Holds(s, f, key);
    assert forall key: Key :: KeyOk(s, key) ==> KeyOk(s', key);
  }

  // ----- one flight moves

  lemma PushStep(s: State, key: Key)
    requires Inv(s)
    ensures Inv(Step(s, Push(key)))
  {
    var s' := Step(s, Push(key));
    assert forall f, k :: Holds(s', f, k) <==> Holds(s, f, k);
    assert forall k: Key :: KeyOk(s, k) ==> KeyOk(s', k);
  }

  lemma ReadStep(s: State, f: nat)
    requires Inv(s) && Enabled(s, Read(f))
    ensures Inv(Step(s, Read(f)))
  {
    var s' := Step(s, Read(f));
    assert forall g, k :: Holds(s', g, k) <==> Holds(s, g, k);
    assert forall k: Key :: KeyOk(s, k) ==> KeyOk(s', k);
  }

  lemma RecheckStep(s: State, f: nat)
    requires Inv(s) && Enabled(s, Recheck(f))
    ensures Inv(Step(s, Recheck(f)))
  {
    var s' := Step(s, Recheck(f));
    assert PhaseOk(s, s.flights[f].phase);
    GenerationsGrow(s.log, s.flights[f].phase.since, |s.log| - 1);
    assert forall g, k :: Holds(s', g, k) ==> Holds(s, g, k);
    assert forall k: Key :: KeyOk(s, k) ==> KeyOk(s', k);
  }

  lemma ClaimStep(s: State, f: nat, now: Time)
    requires Inv(s) && Enabled(s, Claim(f, now))
    ensures Inv(Step(s, Claim(f, now)))
  {
    hide KeyOk, Step;
    ClaimEffect(s, f, now);
    var s' := Step(s, Claim(f, now));
    assert PhaseOk(s, s.flights[f].phase);
    forall k: Key | k !in s'.pruned ensures KeyOk(s', k) {
      ClaimKeepsKey(s, f, now, k);
    }
  }

  lemma ClaimEffect(s: State, f: nat, now: Time)
    requires |s.log| > 0 && Enabled(s, Claim(f, now))
    ensures var s', phase := Step(s, Claim(f, now)), s.flights[f].phase;
      && s' == s.(flights := s'.flights, events := s'.events, pruned := s'.pruned) && s.pruned <= s'.pruned
      && (s'.flights == s.flights[f := s.flights[f].(phase := Checking(phase.since))]
          || s'.flights == s.flights[f := s.flights[f].(phase := Done(false))])
  {
    hide Claimed;
  }

  lemma ClaimKeepsKey(s: State, f: nat, now: Time, k: Key)
    requires |s.log| > 0 && Enabled(s, Claim(f, now)) && KeyOk(s, k) && k !in Step(s, Claim(f, now)).pruned
    ensures KeyOk(Step(s, Claim(f, now)), k)
  {
    hide Claimed;
    var s' := Step(s, Claim(f, now));
    assert forall g :: Holds(s', g, k) <==> Holds(s, g, k) || (g == f && s'.flights[f] == Flight(k, s'.flights[f].phase) && s'.flights[f].phase.Checking?);
  }

  lemma ShowStep(s: State, f: nat, displayed: bool)
    requires Inv(s) && Enabled(s, Show(f, displayed))
    ensures Inv(Step(s, Show(f, displayed)))
  {
    var s' := Step(s, Show(f, displayed));
    var key := s.flights[f].key;
    assert Holds(s, f, key);
    forall k: Key | k !in s'.pruned
      ensures KeyOk(s', k)
    {
      assert KeyOk(s, k);
      assert forall g :: Holds(s', g, k) <==> Holds(s, g, k) && !(displayed && g == f);
    }
  }

  lemma ReleaseStep(s: State, f: nat)
    requires Inv(s) && Enabled(s, Release(f))
    ensures Inv(Step(s, Release(f)))
  {
    var s' := Step(s, Release(f));
    assert Holds(s, f, s.flights[f].key);
    forall k: Key | k !in s'.pruned
      ensures KeyOk(s', k)
    {
      assert KeyOk(s, k);
      assert forall g :: Holds(s', g, k) <==> Holds(s, g, k) && g != f;
    }
  }

  lemma StepKeepsInv(s: State, a: Action)
    requires Inv(s) && Enabled(s, a)
    ensures Inv(Step(s, a))
  {
    match a
    case Push(key) => PushStep(s, key);
    case Read(f) => ReadStep(s, f);
    case Claim(f, now) => ClaimStep(s, f, now);
    case Recheck(f) => RecheckStep(s, f);
    case Show(f, displayed) => ShowStep(s, f, displayed);
    case Release(f) => ReleaseStep(s, f);
    case Tab(request) => TabStep(s, request);
  }

  // ----- runs, from whatever the database held before

  ghost predicate Leads(s0: State, actions: seq<Action>, s: State)
    decreases |actions|
  {
    if actions == [] then s == s0
    else |s0.log| > 0 && Enabled(s0, actions[0]) && Leads(Step(s0, actions[0]), actions[1..], s)
  }

  lemma {:induction false} LeadsKeepsInv(s0: State, actions: seq<Action>, s: State)
    requires Inv(s0) && Leads(s0, actions, s)
    ensures Inv(s) && s0.log <= s.log
    decreases |actions|
  {
    if actions != [] {
      StepKeepsInv(s0, actions[0]);
      LeadsKeepsInv(Step(s0, actions[0]), actions[1..], s);
    }
  }

  lemma InitialInv(saved: Saved, events: map<Key, Time>)
    ensures Inv(Initial(saved, events))
  {
  }

  ghost predicate Reachable(s: State) {
    exists saved, events, actions :: Leads(Initial(saved, events), actions, s)
  }

  lemma ReachableInv(s: State)
    requires Reachable(s)
    ensures Inv(s)
  {
    var saved, events, actions :| Leads(Initial(saved, events), actions, s);
    InitialInv(saved, events);
    LeadsKeepsInv(Initial(saved, events), actions, s);
  }

  // ----- the promises

  /** Until pruning removes its claim record, an event key is shown at most once in the whole run. */
  lemma ShownOnce(s: State, key: Key)
    requires Reachable(s) && key !in s.pruned
    ensures Shown(s, key) <= 1
    ensures Shown(s, key) == 1 ==> key in s.events && forall f :: !Holds(s, f, key)
  {
    ReachableInv(s);
    assert KeyOk(s, key);
  }

  /** Whatever reaches the screen had delivery enabled without a break between its two settings reads. */
  lemma ShownWhileEnabled(s: State, f: nat, displayed: bool)
    requires Reachable(s) && Enabled(s, Show(f, displayed))
    ensures var p := s.flights[f].phase;
      p.since <= p.until < |s.log| && forall i :: p.since <= i <= p.until ==> s.log[i].enabled
  {
    ReachableInv(s);
    assert PhaseOk(s, s.flights[f].phase);
  }

  /** After an applied disable or begin, an enable that carries an older generation is refused for good. */
  lemma {:induction false} OldEnableRefused(s: State, a: Action, actions: seq<Action>, s': State, generation: Option<int>)
    requires Reachable(s) && |s.log| > 0 && a.Tab? && (a.request.Begin? || !a.request.enabled)
    requires Change(Current(s.saved), a.request).Some?
    requires Leads(Step(s, a), actions, s')
    requires generation.None? || generation.value <= Current(s.saved).generation
    ensures Change(Current(s'.saved), Set(true, generation)).None?
  {
    ReachableInv(s);
    StepKeepsInv(s, a);
    LeadsKeepsInv(Step(s, a), actions, s');
    GenerationsGrow(s'.log, |s.log|, |s'.log| - 1);
  }

  /** A disable is refused in exactly one case, and then delivery stays as it was. */
  lemma DisableRefusedOnlyAtTheEnd(s: State, generation: Option<int>)
    requires Reachable(s) && |s.log| > 0
    ensures var s' := Step(s, Tab(Set(false, generation)));
      && (Current(s'.saved).enabled ==> Current(s.saved) == Settings(true, MAX_SAFE_INTEGER))
      && (Current(s.saved) == Settings(true, MAX_SAFE_INTEGER) ==> Current(s'.saved).enabled)
  {
  }
}
