/**
 What the runs over the ledger do to it: when a publication may begin, and what a write leaves in the file and in the
 record of what happened.
 */
module LedgerOutcomes {
  import opened Basics
  import opened ReleaseIdentity
  import opened ReleaseLedger
  import opened LedgerProtocol

  /** The reservation is of a release that is no draft. */
  ghost predicate IsPublished(r: Reservation, published: set<string>) { r.plan.Tag() in published }

  /** One run alone has this plan. */
  ghost predicate HasOneRun(l: Ledger, plan: Plan) {
    exists run :: run in l.plans && l.plans[run].plan == plan && forall i :: i in l.plans && l.plans[i].plan == plan ==> i == run
  }

  /**
   A publication begins from its own reservation, above the floor and above all that is published; a promotion keeps the
   number of its RC, which must still be published and have no newer number beside it.
   */
  lemma BeginsExactly(l: Ledger, p: Publication, published: set<string>)
    ensures !p.promotion ==> (MayBegin(l, p, published) <==>
      && p.run > 0 && ValidPlan(p.plan) && p.run in l.plans && l.plans[p.run] == Reservation(p.plan, p.parent)
      && l.floor < p.plan.build
      && !exists i :: i in l.plans && IsPublished(l.plans[i], published) && l.plans[i].plan.build >= p.plan.build)
    ensures p.promotion ==> (MayBegin(l, p, published) <==>
      && p.run > 0 && ValidPlan(p.plan) && HasOneRun(l, p.plan) && p.plan.channel == Rc && p.plan.promotion == PromoteBytes
      && l.floor <= p.plan.build && p.plan.Tag() in published
      && !exists i :: i in l.plans && IsPublished(l.plans[i], published) && l.plans[i].plan.Tag() != p.plan.Tag()
           && l.plans[i].plan.build > p.plan.build)
  {
    hide ReservationStands, PromotionInOrder, HasOneRun, IsPublished, ValidPlan, Plan.Tag;
    StandsExactly(l, p, published);
    PromotesExactly(l, p, published);
  }

  lemma StandsExactly(l: Ledger, p: Publication, published: set<string>)
    ensures ReservationStands(l, p, published) <==>
      && p.run > 0 && ValidPlan(p.plan) && p.run in l.plans && l.plans[p.run] == Reservation(p.plan, p.parent)
      && l.floor < p.plan.build
      && !exists i :: i in l.plans && IsPublished(l.plans[i], published) && l.plans[i].plan.build >= p.plan.build
  {
    hide ValidPlan, Plan.Tag;
  }

  lemma PromotesExactly(l: Ledger, p: Publication, published: set<string>)
    ensures PromotionInOrder(l, p, published) <==>
      && p.run > 0 && ValidPlan(p.plan) && HasOneRun(l, p.plan) && p.plan.channel == Rc && p.plan.promotion == PromoteBytes
      && l.floor <= p.plan.build && p.plan.Tag() in published
      && !exists i :: i in l.plans && IsPublished(l.plans[i], published) && l.plans[i].plan.Tag() != p.plan.Tag()
           && l.plans[i].plan.build > p.plan.build
  {
    hide ValidPlan, Plan.Tag, HasOneRun;
    OneRunExactly(l, p.plan);
  }

  lemma OneRunExactly(l: Ledger, plan: Plan)
    ensures HasOneRun(l, plan) <==>
      && (exists run :: run in l.plans && l.plans[run].plan == plan)
      && forall i, j :: i in l.plans && j in l.plans && l.plans[i].plan == plan && l.plans[j].plan == plan ==> i == j
  {
  }

  /** A run that finds neither file nor branch starts from nothing; a branch without its file, or a ledger that is no ledger, is an error. */
  lemma ReadExactly(file: Option<Ledger>, branch: bool)
    ensures file.None? && !branch ==> ReadState(file, branch) == ReadOk(Ledger(0, 0, map[]), None)
    ensures file.None? && branch ==> ReadState(file, branch).ReadError?
    ensures file.Some? ==>
      var l := file.value;
      ReadState(file, branch) ==
        if l.floor <= l.counter && forall i :: i in l.plans ==> i > 0 && ValidPlan(l.plans[i].plan) && l.plans[i].plan.build <= l.counter
        then ReadOk(l, file) else ReadError
  {
    hide ValidPlan;
  }

  /** A write lands exactly when the branch exists and holds what the run had read, and either way the run is over. */
  lemma WriteOutcome(w: World, id: nat)
    requires Enabled(w, Write(id))
    ensures var (p, after) := (w.procs[id], Step(w, Write(id)));
      var lands := w.branch && w.file == p.previous;
      && after.file == (if lands then Some(p.next) else w.file)
      && after.consumed == (if lands && p.change.Consumes? then w.consumed + [p.change.build] else w.consumed)
      && after.floors == (if lands && p.change.Adds? then w.floors[p.change.run := p.change.policyFloor] else w.floors)
      && after.branch == w.branch && after.published == w.published && after.procs == w.procs - {id}
  {
  }

  /** The state after a run has prepared its write and then written it, with nothing in between. */
  ghost predicate IsWritten(w: World, id: nat, unused: nat, tagTaken: bool, after: World) {
    && Enabled(w, Prepare(id, unused, tagTaken))
    && Enabled(Step(w, Prepare(id, unused, tagTaken)), Write(id))
    && after == Step(Step(w, Prepare(id, unused, tagTaken)), Write(id))
  }

  /** A run that may begin its publication writes the number as the new floor; only one that is no promotion consumes it. */
  lemma BeginningOutcome(w: World, id: nat, unused: nat, tagTaken: bool)
    requires id in w.procs && w.procs[id].Holding? && w.procs[id].task.Beginning?
    requires w.branch && w.file == w.procs[id].previous && MayBegin(w.procs[id].snapshot, w.procs[id].task.p, w.published)
    ensures var (p, l) := (w.procs[id].task.p, w.procs[id].snapshot);
      exists after :: IsWritten(w, id, unused, tagTaken, after)
        && after.file == Some(Ledger(l.counter, p.plan.build, l.plans))
        && after.consumed == (if p.promotion then w.consumed else w.consumed + [p.plan.build])
        && after.floors == w.floors && after.published == w.published
  {
    hide MayBegin;
    var prepared := Step(w, Prepare(id, unused, tagTaken));
    assert IsWritten(w, id, unused, tagTaken, Step(prepared, Write(id)));
  }

  /** A run that reserves a new plan writes the ledger that has it, and its floor is on record. */
  lemma ReservingOutcome(w: World, id: nat, unused: nat, tagTaken: bool)
    requires id in w.procs && w.procs[id].Holding? && w.procs[id].task.Reserving?
    requires w.branch && w.file == w.procs[id].previous && Reserve(w.procs[id].snapshot, w.procs[id].task.q, unused, tagTaken).New?
    ensures var (q, l) := (w.procs[id].task.q, w.procs[id].snapshot);
      exists after :: IsWritten(w, id, unused, tagTaken, after)
        && after.file == Some(Reserve(l, q, unused, tagTaken).ledger)
        && after.floors == w.floors[q.run := q.policy.floor] && after.consumed == w.consumed && after.published == w.published
  {
    hide Reserve;
    var prepared := Step(w, Prepare(id, unused, tagTaken));
    assert IsWritten(w, id, unused, tagTaken, Step(prepared, Write(id)));
  }

  /** A run that may do neither leaves everything as it was, and is over. */
  lemma NothingToWrite(w: World, id: nat, unused: nat, tagTaken: bool)
    requires id in w.procs && w.procs[id].Holding?
    requires match w.procs[id].task
             case Beginning(p) => !MayBegin(w.procs[id].snapshot, p, w.published)
             case Reserving(q) => !Reserve(w.procs[id].snapshot, q, unused, tagTaken).New?
    ensures Step(w, Prepare(id, unused, tagTaken)) == w.(procs := w.procs - {id})
  {
    hide MayBegin, Reserve;
  }
}
