/**
 Concurrent release runs over one ledger: each reads it, prepares a new version from what it read,
 and writes that back by compare and swap, while the others do the same.
 */
module LedgerProtocol {
  import opened Basics
  import opened Decimal
  import opened ReleaseIdentity
  import opened ReleaseLedger

  datatype Task = Reserving(q: Request) | Beginning(p: Publication)

  datatype Change = Adds(run: nat, policyFloor: nat) | Consumes(build: nat) | Promotes(build: nat)

  datatype Proc =
    | Holding(task: Task, snapshot: Ledger, previous: Option<Ledger>)
    | Writing(change: Change, next: Ledger, previous: Option<Ledger>)

  /** `floors` and `consumed` only record what happened. */
  datatype World = World(
    file: Option<Ledger>,
    branch: bool,
    published: set<string>,     // tags of releases that are no drafts
    procs: map<nat, Proc>,
    floors: map<nat, nat>,      // the policy floor each run reserved under
    consumed: seq<nat>)         // build numbers that publications other than promotions have begun

  datatype Action =
    | Read(id: nat, task: Task)
    | Prepare(id: nat, unused: nat, tagTaken: bool)
    | CreateBranch(id: nat)
    | Write(id: nat)
    | Abandon(id: nat)
    | Publish(tags: set<string>)

  const START := World(None, false, {}, map[], map[], [])

  ghost predicate Enabled(w: World, a: Action) {
    match a
    case Read(id, _) => id !in w.procs
    case Prepare(id, _, _) => id in w.procs && w.procs[id].Holding?
    case CreateBranch(id) => id in w.procs && w.procs[id].Writing?
    case Write(id) => id in w.procs && w.procs[id].Writing?
    case Abandon(id) => id in w.procs
    case Publish(_) => true
  }

  /** What a process holding a ledger does next: a write to attempt, or nothing. */
  ghost function Prepared(w: World, h: Proc, unused: nat, tagTaken: bool): Option<Proc>
    requires h.Holding?
  {
    match h.task
    case Reserving(q) =>
      (match Reserve(h.snapshot, q, unused, tagTaken)
       case New(plan, next) => Some(Writing(Adds(q.run, q.policy.floor), next, h.previous))
       case _ => None)
    case Beginning(p) =>
      if MayBegin(h.snapshot, p, w.published) then
        Some(Writing(if p.promotion then Promotes(p.plan.build) else Consumes(p.plan.build),
                     h.snapshot.(floor := p.plan.build), h.previous))
      else None
  }

  ghost function Drop(w: World, id: nat): World {
    w.(procs := w.procs - {id})
  }

  ghost function Written(w: World, change: Change, next: Ledger): World {
    w.(file := Some(next),
       floors := if change.Adds? then w.floors[change.run := change.policyFloor] else w.floors,
       consumed := if change.Consumes? then w.consumed + [change.build] else w.consumed)
  }

  predicate Lands(w: World, id: nat)
    requires id in w.procs && w.procs[id].Writing?
  {
    w.branch && w.file == w.procs[id].previous
  }

  ghost function Step(w: World, a: Action): World
    requires Enabled(w, a)
  {
    match a
    case Read(id, task) =>
      (match ReadState(w.file, w.branch)
       case ReadOk(l, previous) => w.(procs := w.procs[id := Holding(task, l, previous)])
       case ReadError => w)
    case Prepare(id, unused, tagTaken) =>
      (match Prepared(w, w.procs[id], unused, tagTaken)
       case Some(p) => w.(procs := w.procs[id := p])
       case None => Drop(w, id))
    case CreateBranch(id) => w.(branch := true)
    case Write(id) =>
      var p := w.procs[id];
      if Lands(w, id) then Written(Drop(w, id), p.change, p.next) else Drop(w, id)
    case Abandon(id) => Drop(w, id)
    case Publish(tags) => w.(published := tags)
  }

  // ----- the invariant

  /** The numbers and names of two reservations never clash, except for stable tags. */
  ghost predicate Distinct(p: Plan, q: Plan) {
    && p.build != q.build
    && (p.base == q.base && p.channel == q.channel && p.channel in {Beta, Rc} ==> p.sequence != q.sequence)
  }

  /** A nightly names the run that reserved it. */
  ghost predicate NamesRun(run: nat, p: Plan) {
    p.channel == Nightly ==>
      exists t, attempt :: p.sequence == Stamp(StampText(t, run, attempt))
  }

  ghost predicate LedgerOk(l: Ledger, floors: map<nat, nat>) {
    && Readable(l)
    && (forall run :: run in l.plans ==> run in floors && l.plans[run].plan.build > floors[run] && NamesRun(run, l.plans[run].plan))
    && (forall i, j :: i in l.plans && j in l.plans && i != j ==> Distinct(l.plans[i].plan, l.plans[j].plan))
  }

  ghost predicate Increasing(s: seq<nat>) {
    forall i, j :: 0 <= i < j < |s| ==> s[i] < s[j]
  }

  /** A prepared version differs from what was read by one new reservation or by its floor. */
  ghost predicate ChangeOk(from: Ledger, change: Change, next: Ledger) {
    match change
    case Adds(run, policyFloor) =>
      && run > 0 && run !in from.plans && run in next.plans
      && next == Ledger(next.counter, from.floor, from.plans[run := next.plans[run]])
      && var p := next.plans[run].plan;
         && ValidPlan(p) && p.build == next.counter
         && next.counter > from.counter && next.counter > policyFloor
         && NamesRun(run, p)
         && (p.channel in {Beta, Rc} ==>
              p.sequence.Number? && p.sequence.n > MaxOf(ReservedNumbers(from.plans, p.base, p.channel)))
    case Consumes(build) =>
      && next == from.(floor := build) && build > from.floor
      && exists run :: run in from.plans && from.plans[run].plan.build == build
    case Promotes(build) =>
      && next == from.(floor := build) && build >= from.floor
      && exists run :: run in from.plans && from.plans[run].plan.build == build
  }

  ghost predicate ProcOk(p: Proc) {
    match p
    case Holding(_, snapshot, previous) => snapshot == Base(previous)
    case Writing(change, next, previous) => ChangeOk(Base(previous), change, next)
  }

  function Base(file: Option<Ledger>): Ledger {
    if file.None? then EMPTY else file.value
  }

  ghost predicate Inv(w: World) {
    && LedgerOk(Base(w.file), w.floors)
    && Increasing(w.consumed)
    && (forall i :: 0 <= i < |w.consumed| ==> w.consumed[i] <= Base(w.file).floor)
    && (forall id :: id in w.procs ==> ProcOk(w.procs[id]))
  }

  // ----- steps

  lemma PreparedOk(w: World, h: Proc, unused: nat, tagTaken: bool)
    requires h.Holding? && ProcOk(h)
    ensures var p := Prepared(w, h, unused, tagTaken); p.Some? ==> ProcOk(p.value)
  {
    var p := Prepared(w, h, unused, tagTaken);
    if p.Some? && h.task.Reserving? {
      StampOfRun(h.task.q, h.snapshot, unused, tagTaken);
    }
  }

  lemma StampOfRun(q: Request, l: Ledger, unused: nat, tagTaken: bool)
    requires Reserve(l, q, unused, tagTaken).New?
    ensures NamesRun(q.run, Reserve(l, q, unused, tagTaken).plan)
  {
    assert SequenceFor(l, q, unused).Stamp? ==> SequenceFor(l, q, unused) == Stamp(StampText(q.timestamp, q.run, q.attempt));
  }

  /** An applied change keeps the ledger in order. */
  lemma ChangeKeeps(from: Ledger, change: Change, next: Ledger, floors: map<nat, nat>)
    requires LedgerOk(from, floors) && ChangeOk(from, change, next)
    ensures LedgerOk(next, if change.Adds? then floors[change.run := change.policyFloor] else floors)
  {
    hide ReservedNumbers, NamesRun, ValidPlan, Distinct;
    if change.Adds? {
      NewIsDistinct(from, change, next);
    }
  }

  lemma NewIsDistinct(from: Ledger, change: Change, next: Ledger)
    requires Readable(from) && change.Adds? && ChangeOk(from, change, next)
    ensures var p := next.plans[change.run].plan;
      forall i :: i in from.plans ==> Distinct(from.plans[i].plan, p) && Distinct(p, from.plans[i].plan)
  {
    hide NamesRun;
    var p := next.plans[change.run].plan;
    forall i | i in from.plans
      ensures Distinct(from.plans[i].plan, p) && Distinct(p, from.plans[i].plan)
    {
      var o := from.plans[i].plan;
      if o.base == p.base && o.channel == p.channel && p.channel in {Beta, Rc} {
        assert o.sequence.n in ReservedNumbers(from.plans, p.base, p.channel);
      }
    }
  }

  lemma WriteStep(w: World, id: nat)
    requires Inv(w) && Enabled(w, Write(id))
    ensures Inv(Step(w, Write(id)))
  {
    var p := w.procs[id];
    assert ProcOk(p);
    if Lands(w, id) {
      ChangeKeeps(Base(w.file), p.change, p.next, w.floors);
    }
  }

  lemma StepKeepsInv(w: World, a: Action)
    requires Inv(w) && Enabled(w, a)
    ensures Inv(Step(w, a))
  {
    match a
    case Write(id) => WriteStep(w, id);
    case Prepare(id, unused, tagTaken) => PreparedOk(w, w.procs[id], unused, tagTaken);
    case _ =>
  }

  /** Nothing recorded is ever changed, dropped or lowered. */
  ghost predicate Grows(l: Ledger, l': Ledger) {
    && l.counter <= l'.counter && l.floor <= l'.floor
    && (forall run :: run in l.plans ==> run in l'.plans && l'.plans[run] == l.plans[run])
    && (forall run :: run in l'.plans && run !in l.plans ==> l'.plans[run].plan.build > l.counter)
  }

  lemma StepGrows(w: World, a: Action)
    requires Inv(w) && Enabled(w, a)
    ensures Grows(Base(w.file), Base(Step(w, a).file))
    ensures w.consumed <= Step(w, a).consumed
  {
    hide Prepared, LedgerOk;
    if a.Write? {
      assert ProcOk(w.procs[a.id]);
    }
  }

  // ----- runs

  ghost predicate Leads(w0: World, actions: seq<Action>, w: World)
    decreases |actions|
  {
    if actions == [] then w == w0
    else Enabled(w0, actions[0]) && Leads(Step(w0, actions[0]), actions[1..], w)
  }

  ghost predicate Reachable(w: World) {
    exists actions :: Leads(START, actions, w)
  }

  lemma {:induction false} RunKeeps(w0: World, actions: seq<Action>, w: World)
    requires Inv(w0) && Leads(w0, actions, w)
    ensures Inv(w) && Grows(Base(w0.file), Base(w.file)) && w0.consumed <= w.consumed
    decreases |actions|
  {
    if actions != [] {
      StepKeepsInv(w0, actions[0]);
      StepGrows(w0, actions[0]);
      RunKeeps(Step(w0, actions[0]), actions[1..], w);
    }
  }

  lemma ReachableInv(w: World)
    requires Reachable(w)
    ensures Inv(w)
  {
    var actions :| Leads(START, actions, w);
    RunKeeps(START, actions, w);
  }

  // ----- the promises

  /**
   Whatever the interleaving: distinct build numbers, each at most the counter and above the policy
   floor it was reserved under, and a publication floor within the counter.
   */
  lemma LedgerInOrder(w: World)
    requires Reachable(w) && w.file.Some?
    ensures var l := w.file.value;
      && l.floor <= l.counter
      && (forall r :: r in l.plans ==> r in w.floors && w.floors[r] < l.plans[r].plan.build <= l.counter)
      && (forall i, j :: i in l.plans && j in l.plans && i != j ==> l.plans[i].plan.build != l.plans[j].plan.build)
  {
    ReachableInv(w);
    var l := w.file.value;
    forall i, j | i in l.plans && j in l.plans && i != j
      ensures l.plans[i].plan.build != l.plans[j].plan.build
    {
      assert Distinct(l.plans[i].plan, l.plans[j].plan);
    }
  }

  /** Counter and floor never fall, and no reservation is altered or dropped. */
  lemma {:induction false} LedgerNeverLoses(w: World, actions: seq<Action>, w': World)
    requires Reachable(w) && Leads(w, actions, w')
    ensures Grows(Base(w.file), Base(w'.file))
  {
    ReachableInv(w);
    RunKeeps(w, actions, w');
  }

  /**
   Once a run's reservation is in the ledger, reserving again for that run never allocates anew, in any
   later state: the same inputs give the original plan back, other inputs are refused.
   */
  lemma {:induction false} RetryGetsOriginal(w: World, q: Request, actions: seq<Action>, w': World, unused: nat, tagTaken: bool)
    requires Reachable(w) && Leads(w, actions, w') && q.run in Base(w.file).plans
    ensures var r := Base(w.file).plans[q.run];
      Reserve(Base(w'.file), q, unused, tagTaken) ==
        if BoundTo(r.plan, q.policy, q.sourceSha) && r.plan.base == q.base && r.plan.channel == q.channel && r.parent == q.parent
        then Existing(r.plan) else Refused
  {
    ReachableInv(w);
    RunKeeps(w, actions, w');
    assert q.run > 0;
  }

  /** The reservation a run has just prepared is bound to its own request, so an identical retry succeeds. */
  lemma NewIsBound(l: Ledger, q: Request, unused: nat, tagTaken: bool)
    requires Reserve(l, q, unused, tagTaken).New?
    ensures var n := Reserve(l, q, unused, tagTaken);
      && q.run !in l.plans && n.ledger.plans == l.plans[q.run := Reservation(n.plan, q.parent)]
      && BoundTo(n.plan, q.policy, q.sourceSha) && n.plan.base == q.base && n.plan.channel == q.channel
  {
  }

  /** Publications that are no promotions consume strictly increasing numbers, so none is consumed twice. */
  lemma ConsumedIncreases(w: World)
    requires Reachable(w)
    ensures forall i, j :: 0 <= i < j < |w.consumed| ==> w.consumed[i] < w.consumed[j]
  {
    ReachableInv(w);
  }

  /** A promotion lands only if no publication with a larger number has begun, before or since its RC. */
  lemma PromotionIsNewest(w: World, id: nat)
    requires Reachable(w) && Enabled(w, Write(id)) && w.procs[id].change.Promotes? && Lands(w, id)
    ensures forall i :: 0 <= i < |w.consumed| ==> w.consumed[i] <= w.procs[id].change.build
    ensures Base(Step(w, Write(id)).file).floor == w.procs[id].change.build
  {
    ReachableInv(w);
    assert ProcOk(w.procs[id]);
  }

  /** Beta, RC and nightly tags of different runs differ. */
  lemma TagsNeverShared(w: World, i: nat, j: nat)
    requires Reachable(w) && i != j && i in Base(w.file).plans && j in Base(w.file).plans
    requires Base(w.file).plans[i].plan.channel != Stable
    ensures Base(w.file).plans[i].plan.Tag() != Base(w.file).plans[j].plan.Tag()
  {
    ReachableInv(w);
    var p, q := Base(w.file).plans[i].plan, Base(w.file).plans[j].plan;
    assert Distinct(p, q) && NamesRun(i, p) && NamesRun(j, q);
    if p.Tag() == q.Tag() {
      TagInjective(p.base, p.channel, p.sequence, q.base, q.channel, q.sequence);
      var t, a :| p.sequence == Stamp(StampText(t, i, a));
      var t', a' :| q.sequence == Stamp(StampText(t', j, a'));
      StampRun(t, i, a, t', j, a');
    }
  }

  /** Stable tags are the exception: two runs may reserve the same one while it is unpublished. */
  lemma StableTagShared(l: Ledger, q1: Request, q2: Request, unused: nat)
    requires q1.channel == Stable && q2 == q1.(run := q2.run) && q1.run != q2.run
    requires 0 < q1.run && 0 < q2.run && q1.run !in l.plans && q2.run !in l.plans
    requires IsBase(q1.base) && IsLowerHex(q1.sourceSha, 40) && IsLowerHex(q1.policy.digest, 64)
    requires l.counter + 2 <= MAX_BUILD && q1.policy.floor + 2 <= MAX_BUILD
    ensures var first := Reserve(l, q1, unused, false);
      && first.New?
      && var second := Reserve(first.ledger, q2, unused, false);
         second.New? && second.plan.Tag() == first.plan.Tag()
  {
  }

  /** Among stable plans a tag says no more than the base version. */
  lemma StableTagsMeet(w: World, i: nat, j: nat)
    requires Reachable(w) && i in Base(w.file).plans && j in Base(w.file).plans
    requires Base(w.file).plans[i].plan.channel == Stable && Base(w.file).plans[j].plan.channel == Stable
    ensures var p, q := Base(w.file).plans[i].plan, Base(w.file).plans[j].plan;
      p.Tag() == q.Tag() <==> p.base == q.base
  {
    ReachableInv(w);
    var p, q := Base(w.file).plans[i].plan, Base(w.file).plans[j].plan;
    if p.Tag() == q.Tag() {
      TagInjective(p.base, p.channel, p.sequence, q.base, q.channel, q.sequence);
    }
  }

  /** A reservation made later projects to a larger Apple build triple than every earlier one. */
  lemma {:induction false} LaterIsLargerForApple(w: World, i: nat, actions: seq<Action>, w': World, j: nat)
    requires Reachable(w) && Leads(w, actions, w')
    requires i in Base(w.file).plans && j in Base(w'.file).plans && j !in Base(w.file).plans
    requires Base(w'.file).plans[j].plan.build <= 99_990_000
    ensures var a, b := Apple(Base(w.file).plans[i].plan.build), Apple(Base(w'.file).plans[j].plan.build);
      && a.Some? && b.Some? && Precedes(a.value, b.value)
      && b.value.major <= 9999 && b.value.minor <= 99 && b.value.patch <= 99
  {
    ReachableInv(w);
    RunKeeps(w, actions, w');
    AppleGrows(Base(w.file).plans[i].plan.build, Base(w'.file).plans[j].plan.build);
  }

  // ----- a branch without a ledger

  /** Some continuation writes a ledger. */
  ghost predicate Usable(w: World) { exists actions, w' :: Leads(w, actions, w') && w'.file.Some? }

  /** A run that found no ledger file and has, or can still prepare, a first version to write. */
  ghost predicate MayWriteFirst(p: Proc) {
    && p.previous.None?
    && (p.Holding? ==> p.task.Reserving? && exists unused, tagTaken :: Reserve(p.snapshot, p.task.q, unused, tagTaken).New?)
  }

  ghost predicate Stuck(w: World) {
    w.file.None? && w.branch && forall id :: id in w.procs ==> !MayWriteFirst(w.procs[id]) && ProcOk(w.procs[id])
  }

  lemma StaysStuck(w: World, a: Action)
    requires Stuck(w) && Enabled(w, a)
    ensures Stuck(Step(w, a))
  {
    if a.Prepare? {
      assert ProcOk(w.procs[a.id]);
      NothingPrepared(w, w.procs[a.id], a.unused, a.tagTaken);
      PreparedOk(w, w.procs[a.id], a.unused, a.tagTaken);
    }
  }

  /** What is prepared from an earlier ledger replaces that ledger only. */
  lemma NothingPrepared(w: World, h: Proc, unused: nat, tagTaken: bool)
    requires h.Holding? && ProcOk(h) && !MayWriteFirst(h)
    ensures var p := Prepared(w, h, unused, tagTaken); p.Some? ==> !MayWriteFirst(p.value)
  {
    if h.previous.None? && h.task.Reserving? {
      assert !Reserve(h.snapshot, h.task.q, unused, tagTaken).New?;
    }
  }

  lemma {:induction false} StuckForGood(w: World, actions: seq<Action>, w': World)
    requires Stuck(w) && Leads(w, actions, w')
    ensures Stuck(w')
    decreases |actions|
  {
    if actions != [] {
      StaysStuck(w, actions[0]);
      StuckForGood(Step(w, actions[0]), actions[1..], w');
    }
  }

  lemma WritesFirst(w: World, id: nat)
    requires w.file.None? && id in w.procs && w.procs[id].Writing? && w.procs[id].previous.None?
    ensures Usable(w)
  {
    var created := Step(w, CreateBranch(id));
    var written := Step(created, Write(id));
    assert Leads(written, [], written);
    Extend(created, Write(id), [], written);
    Extend(w, CreateBranch(id), [Write(id)], written);
  }

  lemma UsableBefore(w: World, a: Action)
    requires Enabled(w, a) && Usable(Step(w, a))
    ensures Usable(w)
  {
    var actions, w' :| Leads(Step(w, a), actions, w') && w'.file.Some?;
    Extend(w, a, actions, w');
  }

  lemma PreparesFirst(w: World, id: nat)
    requires w.file.None? && id in w.procs && MayWriteFirst(w.procs[id])
    ensures Usable(w)
  {
    var p := w.procs[id];
    if p.Holding? {
      var unused, tagTaken :| Reserve(p.snapshot, p.task.q, unused, tagTaken).New?;
      WritesFirst(Step(w, Prepare(id, unused, tagTaken)), id);
      UsableBefore(w, Prepare(id, unused, tagTaken));
    } else {
      WritesFirst(w, id);
    }
  }

  /** A request that an empty ledger accepts. */
  lemma FirstRequest() returns (q: Request)
    ensures Reserve(EMPTY, q, 1, false).New?
  {
    var sha, digest := seq(40, i => 'a'), seq(64, i => 'a');
    q := Request(1, 1, "1" + "." + "0" + "." + "0", Stable, sha, Policy(0, PromoteBytes, digest), None, "");
    assert IsNumeral("1") && IsNumeral("0");
    assert IsBase(q.base);
  }

  lemma {:induction false} UnusedId(procs: map<nat, Proc>) returns (id: nat)
    ensures id !in procs
  {
    id := MaxOf(procs.Keys) + 1;
    assert id in procs ==> id in procs.Keys;
  }

  lemma StartsAnew(w: World)
    requires w.file.None? && !w.branch
    ensures Usable(w)
  {
    var id := UnusedId(w.procs);
    var q := FirstRequest();
    PreparesFirst(Step(w, Read(id, Reserving(q))), id);
    UsableBefore(w, Read(id, Reserving(q)));
  }

  /**
   When a run that created the branch ends before its first write, the branch exists without a ledger. It can
   still come to hold one exactly while some run that found nothing before is under way; after that, no run in
   any interleaving reads or writes a ledger again.
   */
  lemma LostBeforeFirstWrite(w: World)
    requires Reachable(w)
    ensures Usable(w) <==> w.file.Some? || !w.branch || exists id :: id in w.procs && MayWriteFirst(w.procs[id])
  {
    ReachableInv(w);
    if w.file.Some? {
      assert Leads(w, [], w);
    } else if !w.branch {
      StartsAnew(w);
    } else if id :| id in w.procs && MayWriteFirst(w.procs[id]) {
      PreparesFirst(w, id);
    } else if Usable(w) {
      var actions, w' :| Leads(w, actions, w') && w'.file.Some?;
      StuckForGood(w, actions, w');
    }
  }

  /** Such a state is reached whenever the first reservation is accepted and then abandoned. */
  lemma LossIsReachable(q: Request, unused: nat)
    requires Reserve(EMPTY, q, unused, false).New?
    ensures exists w :: Reachable(w) && w.branch && !Usable(w)
  {
    var read := Step(START, Read(0, Reserving(q)));
    var prepared := Step(read, Prepare(0, unused, false));
    var created := Step(prepared, CreateBranch(0));
    var w := Step(created, Abandon(0));
    assert Leads(w, [], w);
    Extend(created, Abandon(0), [], w);
    Extend(prepared, CreateBranch(0), [Abandon(0)], w);
    Extend(read, Prepare(0, unused, false), [CreateBranch(0), Abandon(0)], w);
    Extend(START, Read(0, Reserving(q)), [Prepare(0, unused, false), CreateBranch(0), Abandon(0)], w);
    assert Reachable(w);
    LostBeforeFirstWrite(w);
  }

  lemma {:induction false} Extend(w0: World, a: Action, rest: seq<Action>, w: World)
    requires Enabled(w0, a) && Leads(Step(w0, a), rest, w)
    ensures Leads(w0, [a] + rest, w)
  {
    assert ([a] + rest)[1..] == rest;
  }
}
