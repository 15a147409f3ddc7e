/**
 Which notifications become events. The first pass after a (re)connection only primes: it records
 what is there and reports nothing. `digest` stands for the SHA-256 event key of an identity.
 */
module EventProcessor {
  import opened Basics
  import opened Recency
  import opened PushTables
  import opened SampleEvents
  import Storage = PushStore

  datatype Level = Warning | Alarm | Error | OtherLevel

  /** `sourceMs` is the parsed source time; a missing or unusable one stays unknown. */
  datatype Notification =
    Notification(id: string, title: string, body: string, sourceMs: Option<int>, victron: bool, level: Level)

  datatype Identity = Identity(kind: Kind, victron: bool, identifier: string, sourceMs: int)

  datatype Verdict = Skipped | Silenced(key: Key) | Reported(key: Key, notification: Notification)

  type Unknown = map<string, (string, string)>

  function Clip(s: string, n: nat): string { if |s| <= n then s else s[..n] }

  function KeyOf(digest: Identity -> Key, n: Notification): Key
    requires n.sourceMs.Some?
  {
    digest(Identity(Native, n.victron, Clip(n.id, 200), n.sourceMs.value))
  }

  predicate Recent(startedAt: Time, sourceMs: int, now: Time) {
    var source := sourceMs as real / 1000.0;
    source >= startedAt - 30.0 && now - source <= 300.0 && source - now <= 30.0
  }

  /** `_native_event`: the verdict, and the unknown-time baseline afterwards. */
  function Judge(digest: Identity -> Key, startedAt: Time, unknown: Unknown, n: Notification, now: Time, prime: bool)
    : (Verdict, Unknown)
  {
    var id := Clip(n.id, 200);
    if n.sourceMs.None? then (Skipped, if prime && id != "" then unknown[id := (n.title, n.body)] else unknown)
    else
      var hydrated := id in unknown && unknown[id].0 == n.title;
      var rest := unknown - {id};
      if prime || hydrated then (Silenced(KeyOf(digest, n)), rest)
      else if n.level == OtherLevel then (Skipped, rest)
      else if !Recent(startedAt, n.sourceMs.value, now) then (Silenced(KeyOf(digest, n)), rest)
      else (Reported(KeyOf(digest, n), n), rest)
  }

  function JudgeAll(digest: Identity -> Key, startedAt: Time, unknown: Unknown, ns: seq<Notification>, now: Time, prime: bool)
    : (seq<Verdict>, Unknown)
  {
    if ns == [] then ([], unknown)
    else
      var (before, u) := JudgeAll(digest, startedAt, unknown, ns[..|ns| - 1], now, prime);
      var (last, u') := Judge(digest, startedAt, u, ns[|ns| - 1], now, prime);
      (before + [last], u')
  }

  function Still(unknown: Unknown, ns: seq<Notification>): Unknown {
    map id | id in unknown && (exists i :: 0 <= i < |ns| && Clip(ns[i].id, 200) == id) :: unknown[id]
  }

  function ReportsOf(verdicts: seq<Verdict>): seq<Verdict> {
    if verdicts == [] then []
    else
      var last := verdicts[|verdicts| - 1];
      ReportsOf(verdicts[..|verdicts| - 1]) + (if last.Reported? then [last] else [])
  }

  function RememberAll(events: map<Key, Time>, verdicts: seq<Verdict>, now: Time): map<Key, Time> {
    if verdicts == [] then events
    else
      var before := RememberAll(events, verdicts[..|verdicts| - 1], now);
      var last := verdicts[|verdicts| - 1];
      if last.Silenced? then Remember(before, last.key, now) else before
  }

  class EventProcessor {
    const store: Storage.PushStore
    const digest: Identity -> Key
    var epoch: Epoch
    var startedAt: Time
    var nativePrimed: bool
    var unknownPrimed: Unknown
    var samples: map<(Kind, string), (Reading, Time)>

    constructor (store: Storage.PushStore, digest: Identity -> Key)
      ensures this.store == store && this.digest == digest && !nativePrimed && unknownPrimed == map[] && samples == map[]
    {
      this.store, this.digest := store, digest;
      samples := map[];
      epoch, startedAt, nativePrimed, unknownPrimed := TestEpoch, 0.0, false, map[];
    }

    method Reset(epoch: Epoch, now: Time)
      modifies this, store`deliveries
      ensures this.epoch == epoch && startedAt == now && !nativePrimed && unknownPrimed == map[] && samples == map[]
      ensures store.Tables() == RetireEpochs(old(store.Tables()), epoch)
    {
      this.epoch, startedAt, nativePrimed, unknownPrimed, samples := epoch, now, false, map[], map[];
      store.RetireEpochs(epoch);
    }

    function BaselineOf(kind: Kind, id: string): Baseline
      reads this
    {
      if (kind, id) in samples then Some(samples[(kind, id)]) else None
    }

    /** One sample of a device; the rest of the table stays as it is. */
    method TakeSample(kind: Kind, id: string, value: Option<Reading>, now: Time, prime: bool) returns (reported: bool)
      modifies this`samples
      ensures (BaselineOf(kind, id), reported) == Sampled(kind, old(BaselineOf(kind, id)), Sample(value, now, prime))
      ensures samples - {(kind, id)} == old(samples) - {(kind, id)}
    {
      var key := (kind, id);
      if value.None? {
        samples := samples - {key};
        return false;
      }
      var previous := BaselineOf(kind, id);
      samples := samples[key := (value.value, now)];
      if prime || previous.None? || !(0.0 <= now - previous.value.1 <= FRESH_SECONDS) {
        return false;
      }
      reported := Crosses(kind, previous.value.0, value.value);
    }

    /** `_native_event`: judge one notification, and record it when it is silenced. */
    method NativeEvent(n: Notification, now: Time, prime: bool) returns (verdict: Verdict)
      modifies this`unknownPrimed, store`events
      ensures (verdict, unknownPrimed) == Judge(digest, startedAt, old(unknownPrimed), n, now, prime)
      ensures store.events == if verdict.Silenced? then Remember(old(store.events), verdict.key, now) else old(store.events)
      ensures verdict.Reported? ==>
        && verdict == Reported(KeyOf(digest, n), n) && n.level != OtherLevel && !prime && Recent(startedAt, n.sourceMs.value, now)
      ensures n.sourceMs.None? ==> verdict.Skipped? && store.events == old(store.events)
      ensures n.sourceMs.Some? ==> Clip(n.id, 200) !in unknownPrimed && (prime ==> verdict.Silenced?)
      ensures n.sourceMs.Some? && verdict.Skipped? ==> !prime && n.level == OtherLevel
    {
      var id := Clip(n.id, 200);
      if n.sourceMs.None? {
        if prime && id != "" {
          unknownPrimed := unknownPrimed[id := (n.title, n.body)];
        }
        return Skipped;
      }
      var hydrated := id in unknownPrimed && unknownPrimed[id].0 == n.title;
      unknownPrimed := unknownPrimed - {id};
      if !prime && !hydrated {
        if n.level == OtherLevel {
          return Skipped;
        }
        if Recent(startedAt, n.sourceMs.value, now) {
          return Reported(KeyOf(digest, n), n);
        }
      }
      verdict := Silenced(KeyOf(digest, n));
      var _ := store.Remember(verdict.key, now);
    }

    method Native(notifications: seq<Notification>, now: Time, prime: bool) returns (output: seq<Verdict>)
      modifies this`nativePrimed, this`unknownPrimed, store`events
      ensures nativePrimed
      ensures var ns := if |notifications| <= 100 then notifications else notifications[..100];
        var (verdicts, unknown) :=
          JudgeAll(digest, startedAt, Still(old(unknownPrimed), ns), ns, now, prime || !old(nativePrimed));
        && output == ReportsOf(verdicts)
        && unknownPrimed == unknown
        && store.events == RememberAll(old(store.events), verdicts, now)
    {
      output := [];
      var priming := prime || !nativePrimed;
      var ns := if |notifications| <= 100 then notifications else notifications[..100];
      unknownPrimed := Still(unknownPrimed, ns);
      ghost var unknown := unknownPrimed;
      ghost var verdicts := [];
      for i := 0 to |ns|
        invariant (verdicts, unknownPrimed) == JudgeAll(digest, startedAt, unknown, ns[..i], now, priming)
        invariant output == ReportsOf(verdicts)
        invariant store.events == RememberAll(old(store.events), verdicts, now)
        modifies this`unknownPrimed, store`events
      {
        var verdict := NativeEvent(ns[i], now, priming);
        OneMoreVerdict(verdicts, verdict, old(store.events), now);
        OneMoreJudged(digest, startedAt, unknown, ns, i, now, priming);
        verdicts := verdicts + [verdict];
        if verdict.Reported? {
          output := output + [verdict];
        }
      }
      assert ns[..|ns|] == ns;
      nativePrimed := true;
    }
  }

  lemma {:induction false} OneMoreVerdict(verdicts: seq<Verdict>, v: Verdict, events: map<Key, Time>, now: Time)
    ensures ReportsOf(verdicts + [v]) == ReportsOf(verdicts) + if v.Reported? then [v] else []
    ensures RememberAll(events, verdicts + [v], now) ==
      if v.Silenced? then Remember(RememberAll(events, verdicts, now), v.key, now) else RememberAll(events, verdicts, now)
  {
    assert (verdicts + [v])[..|verdicts|] == verdicts;
  }

  lemma {:induction false} OneMoreJudged(digest: Identity -> Key, startedAt: Time, unknown: Unknown, ns: seq<Notification>, i: nat, now: Time, prime: bool)
    requires i < |ns|
    ensures var (before, u) := JudgeAll(digest, startedAt, unknown, ns[..i], now, prime);
      var (v, u') := Judge(digest, startedAt, u, ns[i], now, prime);
      JudgeAll(digest, startedAt, unknown, ns[..i + 1], now, prime) == (before + [v], u')
  {
    assert ns[..i + 1][..i] == ns[..i];
  }

  /** The verdict of a notification is made from the baseline that those before it leave. */
  lemma {:induction false} VerdictFrom(digest: Identity -> Key, startedAt: Time, unknown: Unknown, ns: seq<Notification>, now: Time, prime: bool, j: nat)
    requires j < |ns|
    ensures |JudgeAll(digest, startedAt, unknown, ns, now, prime).0| == |ns|
    ensures JudgeAll(digest, startedAt, unknown, ns, now, prime).0[j] ==
      Judge(digest, startedAt, JudgeAll(digest, startedAt, unknown, ns[..j], now, prime).1, ns[j], now, prime).0
    decreases |ns|
  {
    var most := ns[..|ns| - 1];
    if j < |most| {
      VerdictFrom(digest, startedAt, unknown, most, now, prime, j);
      assert most[..j] == ns[..j];
    } else if most != [] {
      VerdictFrom(digest, startedAt, unknown, most, now, prime, 0);
    }
  }

  lemma {:induction false} ReportsAreVerdicts(verdicts: seq<Verdict>, v: Verdict)
    ensures v in ReportsOf(verdicts) <==> v in verdicts && v.Reported?
  {
    if verdicts != [] {
      ReportsAreVerdicts(verdicts[..|verdicts| - 1], v);
      assert verdicts == verdicts[..|verdicts| - 1] + [verdicts[|verdicts| - 1]];
    }
  }

  /** Priming reports nothing and silences every notification that has a source time. */
  lemma {:induction false} PrimingIsSilent(digest: Identity -> Key, startedAt: Time, unknown: Unknown, ns: seq<Notification>, now: Time)
    ensures var verdicts := JudgeAll(digest, startedAt, unknown, ns, now, true).0;
      && ReportsOf(verdicts) == []
      && |verdicts| == |ns|
      && forall i :: 0 <= i < |ns| && ns[i].sourceMs.Some? ==> verdicts[i] == Silenced(KeyOf(digest, ns[i]))
  {
    var verdicts := JudgeAll(digest, startedAt, unknown, ns, now, true).0;
    forall i | 0 <= i < |ns|
      ensures |verdicts| == |ns| && !verdicts[i].Reported?
      ensures ns[i].sourceMs.Some? ==> verdicts[i] == Silenced(KeyOf(digest, ns[i]))
    {
      VerdictFrom(digest, startedAt, unknown, ns, now, true, i);
    }
    assert |verdicts| == |ns|;
    if ReportsOf(verdicts) != [] {
      ReportsAreVerdicts(verdicts, ReportsOf(verdicts)[0]);
    }
  }

  /** A reported event is a dated warning, not older than 300 s nor 30 s before the epoch, nor 30 s ahead. */
  lemma {:induction false} ReportsAreRecent(digest: Identity -> Key, startedAt: Time, unknown: Unknown, ns: seq<Notification>, now: Time,
                         prime: bool, v: Verdict)
    requires v in ReportsOf(JudgeAll(digest, startedAt, unknown, ns, now, prime).0)
    ensures v.Reported? && v.notification in ns && v.notification.sourceMs.Some?
    ensures v.key == KeyOf(digest, v.notification) && v.notification.level != OtherLevel
    ensures Recent(startedAt, v.notification.sourceMs.value, now) && !prime
  {
    var verdicts := JudgeAll(digest, startedAt, unknown, ns, now, prime).0;
    ReportsAreVerdicts(verdicts, v);
    var i :| 0 <= i < |verdicts| && verdicts[i] == v;
    if ns != [] {
      VerdictFrom(digest, startedAt, unknown, ns, now, prime, 0);
    }
    VerdictFrom(digest, startedAt, unknown, ns, now, prime, i);
  }

  // ----- an occurrence first seen without a time

  /** The baseline has this occurrence: a notification of the id, without a time, with this title. */
  predicate Awaits(unknown: Unknown, id: string, title: string) { id in unknown && unknown[id].0 == title }

  predicate IsOf(n: Notification, id: string) { Clip(n.id, 200) == id }

  /** A pass that shows the id, and only without a time. */
  predicate StillUndated(ns: seq<Notification>, id: string) {
    (exists k :: 0 <= k < |ns| && IsOf(ns[k], id)) && forall k :: 0 <= k < |ns| && IsOf(ns[k], id) ==> ns[k].sourceMs.None?
  }

  datatype Pass = Pass(ns: seq<Notification>, now: Time)

  /** The baseline after passes that do not prime. */
  function AfterPasses(digest: Identity -> Key, startedAt: Time, unknown: Unknown, passes: seq<Pass>): Unknown {
    if passes == [] then unknown
    else
      var p := passes[|passes| - 1];
      JudgeAll(digest, startedAt, Still(AfterPasses(digest, startedAt, unknown, passes[..|passes| - 1]), p.ns), p.ns, p.now, false).1
  }

  /** Priming keeps the last undated notification of an id. */
  lemma {:induction false} PrimedAwaits(digest: Identity -> Key, startedAt: Time, unknown: Unknown, ns: seq<Notification>, now: Time, i: nat)
    requires i < |ns| && ns[i].sourceMs.None? && ns[i].id != ""
    requires forall k :: i < k < |ns| ==> !IsOf(ns[k], Clip(ns[i].id, 200))
    ensures Awaits(JudgeAll(digest, startedAt, unknown, ns, now, true).1, Clip(ns[i].id, 200), ns[i].title)
    decreases |ns|
  {
    if i < |ns| - 1 {
      PrimedAwaits(digest, startedAt, unknown, ns[..|ns| - 1], now, i);
    }
  }

  /** Undated notifications of a pass that does not prime, and any of other ids, leave the occurrence in the baseline. */
  lemma {:induction false} UndatedKeeps(digest: Identity -> Key, startedAt: Time, unknown: Unknown, ns: seq<Notification>, now: Time,
                                        id: string, title: string)
    requires Awaits(unknown, id, title) && forall k :: 0 <= k < |ns| && IsOf(ns[k], id) ==> ns[k].sourceMs.None?
    ensures Awaits(JudgeAll(digest, startedAt, unknown, ns, now, false).1, id, title)
    decreases |ns|
  {
    if ns != [] {
      UndatedKeeps(digest, startedAt, unknown, ns[..|ns| - 1], now, id, title);
    }
  }

  lemma {:induction false} PassesKeep(digest: Identity -> Key, startedAt: Time, unknown: Unknown, passes: seq<Pass>, id: string, title: string)
    requires Awaits(unknown, id, title) && forall p :: p in passes ==> StillUndated(p.ns, id)
    ensures Awaits(AfterPasses(digest, startedAt, unknown, passes), id, title)
    decreases |passes|
  {
    if passes != [] {
      var most, p := passes[..|passes| - 1], passes[|passes| - 1];
      PassesKeep(digest, startedAt, unknown, most, id, title);
      assert p in passes;
      var k :| 0 <= k < |p.ns| && IsOf(p.ns[k], id);
      assert Clip(p.ns[k].id, 200) == id;
      UndatedKeeps(digest, startedAt, Still(AfterPasses(digest, startedAt, unknown, most), p.ns), p.ns, p.now, id, title);
    }
  }

  /**
   An occurrence last seen without a time while priming is silenced, not reported, when a later pass first
   gives it a time, whatever else the passes carry, as long as each pass in between still shows it.
   */
  lemma {:induction false} HydrationIsSilent(digest: Identity -> Key, startedAt: Time, unknown: Unknown,
      primed: seq<Notification>, t0: Time, i: nat, between: seq<Pass>, ns: seq<Notification>, t1: Time, j: nat)
    requires i < |primed| && primed[i].sourceMs.None? && primed[i].id != ""
    requires forall k :: i < k < |primed| ==> !IsOf(primed[k], Clip(primed[i].id, 200))
    requires forall p :: p in between ==> StillUndated(p.ns, Clip(primed[i].id, 200))
    requires j < |ns| && ns[j].sourceMs.Some? && IsOf(ns[j], Clip(primed[i].id, 200)) && ns[j].title == primed[i].title
    requires forall k :: 0 <= k < j && IsOf(ns[k], Clip(primed[i].id, 200)) ==> ns[k].sourceMs.None?
    ensures var u := AfterPasses(digest, startedAt, JudgeAll(digest, startedAt, unknown, primed, t0, true).1, between);
      var verdicts := JudgeAll(digest, startedAt, Still(u, ns), ns, t1, false).0;
      |verdicts| == |ns| && verdicts[j] == Silenced(KeyOf(digest, ns[j]))
  {
    var id, title := Clip(primed[i].id, 200), primed[i].title;
    PrimedAwaits(digest, startedAt, unknown, primed, t0, i);
    PassesKeep(digest, startedAt, JudgeAll(digest, startedAt, unknown, primed, t0, true).1, between, id, title);
    var u := AfterPasses(digest, startedAt, JudgeAll(digest, startedAt, unknown, primed, t0, true).1, between);
    assert Clip(ns[j].id, 200) == id;
    assert Awaits(Still(u, ns), id, title);
    UndatedKeeps(digest, startedAt, Still(u, ns), ns[..j], t1, id, title);
    VerdictFrom(digest, startedAt, Still(u, ns), ns, t1, false, j);
  }
  // ----- what a verdict depends on

  /** Not from more than 30 s before the epoch began, at most 300 s old, and at most 30 s ahead of the clock. */
  ghost predicate IsCurrent(startedAt: Time, sourceMs: int, now: Time) {
    var source := sourceMs as real / 1000.0;
    startedAt <= source + 30.0 && now <= source + 300.0 && source <= now + 30.0
  }

  /** The identifier as far as it counts. */
  ghost predicate IsIdOf(id: string, n: Notification) { id <= n.id && |id| == if |n.id| < 200 then |n.id| else 200 }

  /** The notification's event key: that of its source, the first 200 characters of its id and its time. */
  ghost predicate IsKeyOf(digest: Identity -> Key, n: Notification, key: Key) {
    n.sourceMs.Some? && exists id :: IsIdOf(id, n) && key == digest(Identity(Native, n.victron, id, n.sourceMs.value))
  }

  /** The baseline holds an occurrence of this id and title. */
  ghost predicate IsExpected(unknown: Unknown, n: Notification) {
    exists id :: IsIdOf(id, n) && id in unknown && unknown[id].0 == n.title
  }

  /** A dated warning, alarm or error outside priming that is current and not the first dating of an expected occurrence is reported. */
  ghost predicate IsReportable(startedAt: Time, unknown: Unknown, n: Notification, now: Time, prime: bool) {
    && n.sourceMs.Some? && !prime && !IsExpected(unknown, n)
    && (n.level == Warning || n.level == Alarm || n.level == Error) && IsCurrent(startedAt, n.sourceMs.value, now)
  }

  /** Undated notifications are skipped, and dated ones of another level outside priming. */
  ghost predicate IsSkipped(unknown: Unknown, n: Notification, prime: bool) {
    n.sourceMs.None? || (!prime && !IsExpected(unknown, n) && n.level == OtherLevel)
  }

  lemma OneId(n: Notification, id: string)
    ensures IsIdOf(id, n) <==> id == Clip(n.id, 200)
  {
  }

  /** Each notification is reported, skipped or silenced, whichever of the two conditions holds or neither. */
  lemma JudgesExactly(digest: Identity -> Key, startedAt: Time, unknown: Unknown, n: Notification, now: Time, prime: bool)
    ensures var v := Judge(digest, startedAt, unknown, n, now, prime).0;
      && (v.Reported? <==> IsReportable(startedAt, unknown, n, now, prime))
      && (v.Skipped? <==> IsSkipped(unknown, n, prime))
      && (!v.Skipped? ==> IsKeyOf(digest, n, v.key))
      && (v.Reported? ==> v.notification == n)
  {
    OneId(n, Clip(n.id, 200));
    if id :| IsIdOf(id, n) && id in unknown && unknown[id].0 == n.title {
      OneId(n, id);
    }
    if n.sourceMs.Some? {
      var source := n.sourceMs.value as real / 1000.0;
      assert IsCurrent(startedAt, n.sourceMs.value, now) <==> source >= startedAt - 30.0 && now - source <= 300.0 && source - now <= 30.0;
    }
  }

  /** The baseline afterwards: undated ones are added while priming, and a dated one is taken out. */
  lemma BaselineExactly(digest: Identity -> Key, startedAt: Time, unknown: Unknown, n: Notification, now: Time, prime: bool, id: string)
    ensures var u := Judge(digest, startedAt, unknown, n, now, prime).1;
      if !IsIdOf(id, n) then (id in u <==> id in unknown) && (id in u ==> u[id] == unknown[id])
      else if n.sourceMs.Some? then id !in u
      else if prime && n.id != "" then id in u && u[id] == (n.title, n.body)
      else (id in u <==> id in unknown) && (id in u ==> u[id] == unknown[id])
  {
    OneId(n, id);
  }

  /** In a pass that does not prime, the baseline loses the ids of the dated notifications before and nothing else. */
  lemma {:induction false} BaselineLoses(digest: Identity -> Key, startedAt: Time, unknown: Unknown, ns: seq<Notification>, now: Time, id: string)
    ensures var u := JudgeAll(digest, startedAt, unknown, ns, now, false).1;
      && (id in u <==> id in unknown && forall k :: 0 <= k < |ns| && IsIdOf(id, ns[k]) ==> ns[k].sourceMs.None?)
      && (id in u ==> u[id] == unknown[id])
  {
    if ns != [] {
      var most, last := ns[..|ns| - 1], ns[|ns| - 1];
      BaselineLoses(digest, startedAt, unknown, most, now, id);
      BaselineExactly(digest, startedAt, JudgeAll(digest, startedAt, unknown, most, now, false).1, last, now, false, id);
      assert forall k :: 0 <= k < |most| ==> ns[k] == most[k];
    }
  }

  /** After such a pass the baseline knows an occurrence exactly when it did before, and the pass shows it and dates it nowhere. */
  lemma {:induction false} PassForgets(digest: Identity -> Key, startedAt: Time, unknown: Unknown, ns: seq<Notification>, now: Time, id: string)
    ensures var u := JudgeAll(digest, startedAt, Still(unknown, ns), ns, now, false).1;
      && (id in u <==>
            && id in unknown && (exists k :: 0 <= k < |ns| && IsIdOf(id, ns[k]))
            && forall k :: 0 <= k < |ns| && IsIdOf(id, ns[k]) ==> ns[k].sourceMs.None?)
      && (id in u ==> u[id] == unknown[id])
  {
    BaselineLoses(digest, startedAt, Still(unknown, ns), ns, now, id);
    forall k | 0 <= k < |ns| ensures IsIdOf(id, ns[k]) <==> Clip(ns[k].id, 200) == id {
      OneId(ns[k], id);
    }
  }

  /**
   Over a whole pass outside priming: the notification at `j` is reported exactly when it is a current, dated warning
   and is not the first of its id to be dated while an undated one of its title was expected.
   */
  lemma {:induction false} PassReports(digest: Identity -> Key, startedAt: Time, unknown: Unknown, ns: seq<Notification>, now: Time, j: nat)
    requires j < |ns|
    ensures var verdicts := JudgeAll(digest, startedAt, unknown, ns, now, false).0;
      && |verdicts| == |ns|
      && (verdicts[j].Reported? <==>
            && ns[j].sourceMs.Some? && ns[j].level != OtherLevel && IsCurrent(startedAt, ns[j].sourceMs.value, now)
            && !(IsExpected(unknown, ns[j])
                 && forall k :: 0 <= k < j && Clip(ns[k].id, 200) == Clip(ns[j].id, 200) ==> ns[k].sourceMs.None?))
  {
    var u := JudgeAll(digest, startedAt, unknown, ns[..j], now, false).1;
    var id := Clip(ns[j].id, 200);
    VerdictFrom(digest, startedAt, unknown, ns, now, false, j);
    JudgesExactly(digest, startedAt, u, ns[j], now, false);
    BaselineLoses(digest, startedAt, unknown, ns[..j], now, id);
    OneId(ns[j], id);
    forall k | 0 <= k < j ensures IsIdOf(id, ns[..j][k]) <==> Clip(ns[k].id, 200) == id {
      OneId(ns[k], id);
    }
    ExpectedBefore(u, unknown, ns[j]);
    var undated := forall k :: 0 <= k < j && Clip(ns[k].id, 200) == id ==> ns[k].sourceMs.None?;
    assert id in u <==> id in unknown && undated by {
      if !undated {
        var k :| 0 <= k < j && Clip(ns[k].id, 200) == id && ns[k].sourceMs.Some?;
        assert IsIdOf(id, ns[..j][k]);
      }
    }
  }

  lemma ExpectedBefore(u: Unknown, unknown: Unknown, n: Notification)
    requires var id := Clip(n.id, 200); id in u ==> id in unknown && u[id] == unknown[id]
    ensures IsExpected(u, n) <==> Clip(n.id, 200) in u && IsExpected(unknown, n)
    ensures IsExpected(unknown, n) ==> Clip(n.id, 200) in unknown
  {
    OneId(n, Clip(n.id, 200));
    if id :| IsIdOf(id, n) && id in u && u[id].0 == n.title {
      OneId(n, id);
    }
    if id :| IsIdOf(id, n) && id in unknown && unknown[id].0 == n.title {
      OneId(n, id);
    }
  }
}
