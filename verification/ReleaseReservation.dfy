/**
 What a reservation makes of its inputs and of the ledger it was made from: every field of the plan, the least
 numbers that are free, and when a run is refused or given its old plan again.
 */
module ReleaseReservation {
  import opened Basics
  import opened Decimal
  import opened ReleaseIdentity
  import opened ReleaseLedger

  /** The number is reserved for this base version and channel. */
  ghost predicate IsReserved(l: Ledger, base: string, channel: Channel, n: nat) {
    exists run :: run in l.plans && l.plans[run].plan.base == base && l.plans[run].plan.channel == channel
      && l.plans[run].plan.sequence == Number(n)
  }

  /** The least number that is at least `unused` and above every reserved one. */
  ghost predicate IsLeastFree(l: Ledger, base: string, channel: Channel, unused: nat, n: nat) {
    && n >= unused && n >= 1 && (forall k: nat :: IsReserved(l, base, channel, k) ==> k < n)
    && (n == unused || n == 1 || IsReserved(l, base, channel, n - 1))
  }

  ghost predicate IsSequence(l: Ledger, q: Request, unused: nat, sequence: Sequence) {
    match q.channel
    case Stable => sequence == NoSequence
    case Nightly => sequence == Stamp(q.timestamp + "." + Render(q.run) + "." + Render(q.attempt))
    case _ => sequence.Number? && IsLeastFree(l, q.base, q.channel, unused, sequence.n)
  }

  /** The least number above the counter and above the policy's floor. */
  ghost predicate IsNextBuild(l: Ledger, floor: nat, build: nat) {
    build > l.counter && build > floor && (build == l.counter + 1 || build == floor + 1)
  }

  /** The plan carries the inputs, the next build number and the sequence of its channel. */
  ghost predicate IsPlanFor(l: Ledger, q: Request, unused: nat, p: Plan) {
    && p.base == q.base && p.channel == q.channel && p.sourceSha == q.sourceSha
    && p.policyDigest == q.policy.digest && p.promotion == q.policy.promotion
    && IsNextBuild(l, q.policy.floor, p.build) && IsSequence(l, q, unused, p.sequence)
  }

  /** The run has this plan from before, reserved for the same inputs under a floor it is still above. */
  ghost predicate HasPlan(l: Ledger, q: Request, p: Plan) {
    && q.run in l.plans && l.plans[q.run] == Reservation(p, q.parent)
    && p.base == q.base && p.channel == q.channel && p.sourceSha == q.sourceSha
    && p.policyDigest == q.policy.digest && p.promotion == q.policy.promotion && p.build > q.policy.floor
  }

  lemma LeastFree(l: Ledger, base: string, channel: Channel, unused: nat)
    ensures IsLeastFree(l, base, channel, unused, Max(unused, MaxOf(ReservedNumbers(l.plans, base, channel)) + 1))
  {
    var numbers := ReservedNumbers(l.plans, base, channel);
    var n := Max(unused, MaxOf(numbers) + 1);
    forall k: nat | IsReserved(l, base, channel, k) ensures k in numbers {
      var run :| run in l.plans && l.plans[run].plan.base == base && l.plans[run].plan.channel == channel
        && l.plans[run].plan.sequence == Number(k);
    }
    if n != unused && n != 1 {
      assert n - 1 in numbers;
      var run :| run in l.plans && l.plans[run].plan.base == base && l.plans[run].plan.channel == channel
        && l.plans[run].plan.sequence.Number? && l.plans[run].plan.sequence.n == n - 1;
      assert l.plans[run].plan.sequence == Number(n - 1);
    }
  }

  /** Only one plan meets that description. */
  lemma OnePlan(l: Ledger, q: Request, unused: nat, p: Plan, p': Plan)
    requires IsPlanFor(l, q, unused, p) && IsPlanFor(l, q, unused, p')
    ensures p == p'
  {
  }

  /** A run that is new reserves the plan of its inputs, unless that is no valid plan or its tag exists. */
  lemma ReservesExactly(l: Ledger, q: Request, unused: nat, tagTaken: bool)
    requires Readable(l)
    ensures var r := Reserve(l, q, unused, tagTaken);
      && (r.New? <==> q.run > 0 && q.run !in l.plans && !tagTaken && exists p :: IsPlanFor(l, q, unused, p) && ValidPlan(p))
      && (r.New? ==>
            && IsPlanFor(l, q, unused, r.plan)
            && r.ledger == Ledger(r.plan.build, l.floor, l.plans[q.run := Reservation(r.plan, q.parent)]))
      && (r.Existing? <==> exists p :: HasPlan(l, q, p))
      && (r.Existing? ==> HasPlan(l, q, r.plan))
  {
    hide IsLeastFree, Acceptable;
    LeastFree(l, q.base, q.channel, unused);
    var plan := Plan(q.base, q.channel, SequenceFor(l, q, unused), q.sourceSha, Max(l.counter, q.policy.floor) + 1, q.policy.digest,
      q.policy.promotion);
    assert IsPlanFor(l, q, unused, plan);
    forall p | IsPlanFor(l, q, unused, p) ensures p == plan {
      OnePlan(l, q, unused, p, plan);
    }
    if q.run in l.plans && Reserve(l, q, unused, tagTaken).Existing? {
      assert HasPlan(l, q, l.plans[q.run].plan);
    }
  }

  /** The tag of a new beta or RC plan is none of those that exist and none that the ledger has reserved. */
  lemma ReservedTagIsFree(l: Ledger, q: Request, tags: seq<string>, unused: nat, tagTaken: bool)
    requires Readable(l) && q.channel in {Beta, Rc} && IsFirstUnused(tags, q.base, q.channel, unused)
    requires Reserve(l, q, unused, tagTaken).New?
    ensures var tag := Reserve(l, q, unused, tagTaken).plan.Tag();
      tag !in tags && forall run :: run in l.plans ==> l.plans[run].plan.Tag() != tag
  {
    ReservesExactly(l, q, unused, tagTaken);
    var plan := Reserve(l, q, unused, tagTaken).plan;
    forall run | run in l.plans ensures l.plans[run].plan.Tag() != plan.Tag() {
      var o := l.plans[run].plan;
      if o.Tag() == plan.Tag() {
        TagInjective(o.base, o.channel, o.sequence, plan.base, plan.channel, plan.sequence);
        assert IsReserved(l, plan.base, plan.channel, plan.sequence.n);
      }
    }
  }
}
