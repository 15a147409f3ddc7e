/** The version ledger and the two operations that prepare a new version of it. */
module ReleaseLedger {
  import opened Basics
  import opened Decimal
  import opened ReleaseIdentity

  const MAX_BUILD: nat := 2_100_000_000

  datatype Promotion = PromoteBytes | FinalBuild

  datatype Policy = Policy(floor: nat, promotion: Promotion, digest: string)

  /** Version and tag are left out: a valid plan carries exactly the ones its identity gives. */
  datatype Plan = Plan(
    base: string, channel: Channel, sequence: Sequence, sourceSha: string, build: nat,
    policyDigest: string, promotion: Promotion)
  {
    function Tag(): string { ReleaseIdentity.Tag(base, channel, sequence) }
  }

  /** The accepted RC a final build descends from, as canonical text, if any. */
  type Parent = Option<string>

  datatype Reservation = Reservation(plan: Plan, parent: Parent)

  datatype Ledger = Ledger(counter: nat, floor: nat, plans: map<nat, Reservation>)

  const EMPTY := Ledger(0, 0, map[])

  predicate IsLowerHex(s: string, n: nat) {
    |s| == n && forall i :: 0 <= i < n ==> '0' <= s[i] <= '9' || 'a' <= s[i] <= 'f'
  }

  /** `validate_plan` without a policy or source binding. */
  ghost predicate ValidPlan(p: Plan) {
    && Acceptable(p.base, p.channel, p.sequence)
    && IsLowerHex(p.sourceSha, 40)
    && IsLowerHex(p.policyDigest, 64)
    && 0 < p.build <= MAX_BUILD
  }

  ghost predicate BoundTo(p: Plan, policy: Policy, sourceSha: string) {
    && ValidPlan(p)
    && p.policyDigest == policy.digest
    && p.promotion == policy.promotion
    && p.build > policy.floor
    && p.sourceSha == sourceSha
  }

  /** The checks every read of an existing ledger makes. */
  ghost predicate Readable(l: Ledger) {
    && l.floor <= l.counter
    && forall run :: run in l.plans ==> run > 0 && ValidPlan(l.plans[run].plan) && l.plans[run].plan.build <= l.counter
  }

  // ----- reserving

  datatype Request = Request(
    run: nat, attempt: nat, base: string, channel: Channel, sourceSha: string, policy: Policy, parent: Parent,
    timestamp: string)

  datatype Reserved = Existing(plan: Plan) | New(plan: Plan, ledger: Ledger) | Refused

  function ReservedNumbers(plans: map<nat, Reservation>, base: string, channel: Channel): set<nat> {
    set run | run in plans && plans[run].plan.base == base && plans[run].plan.channel == channel
      && plans[run].plan.sequence.Number? :: plans[run].plan.sequence.n
  }

  ghost function MaxOf(s: set<nat>): (m: nat)
    ensures forall x :: x in s ==> x <= m
    ensures s != {} ==> m in s
    ensures s == {} ==> m == 0
  {
    if s == {} then 0
    else
      var x :| x in s;
      assert s == (s - {x}) + {x};
      var m := MaxOf(s - {x});
      if m < x || s == {x} then x else m
  }

  function Max(a: nat, b: nat): nat { if a >= b then a else b }

  /** `unused` is what `next_sequence` found among the published tags and releases. */
  ghost function SequenceFor(l: Ledger, q: Request, unused: nat): Sequence {
    match q.channel
    case Stable => NoSequence
    case Nightly => Stamp(StampText(q.timestamp, q.run, q.attempt))
    case _ => Number(Max(unused, MaxOf(ReservedNumbers(l.plans, q.base, q.channel)) + 1))
  }

  ghost function Reserve(l: Ledger, q: Request, unused: nat, tagTaken: bool): Reserved {
    if q.run == 0 then Refused
    else if q.run in l.plans then
      var record := l.plans[q.run];
      if BoundTo(record.plan, q.policy, q.sourceSha) && record.plan.base == q.base && record.plan.channel == q.channel
         && record.parent == q.parent then Existing(record.plan)
      else Refused
    else
      var number := Max(l.counter, q.policy.floor) + 1;
      var plan := Plan(q.base, q.channel, SequenceFor(l, q, unused), q.sourceSha, number, q.policy.digest, q.policy.promotion);
      if !ValidPlan(plan) || tagTaken then Refused
      else New(plan, Ledger(number, l.floor, l.plans[q.run := Reservation(plan, q.parent)]))
  }

  // ----- beginning a publication

  datatype Publication = Publication(plan: Plan, run: nat, parent: Parent, promotion: bool)

  ghost predicate ReservationStands(l: Ledger, p: Publication, published: set<string>) {
    && ValidPlan(p.plan) && p.run > 0
    && p.run in l.plans && l.plans[p.run] == Reservation(p.plan, p.parent)
    && p.plan.build > l.floor
    && forall run :: run in l.plans && l.plans[run].plan.Tag() in published ==> l.plans[run].plan.build < p.plan.build
  }

  ghost predicate PromotionInOrder(l: Ledger, p: Publication, published: set<string>) {
    && ValidPlan(p.plan) && p.run > 0
    && p.plan.channel == Rc && p.plan.promotion == PromoteBytes
    && (exists run :: run in l.plans && l.plans[run].plan == p.plan)
    && (forall i, j :: i in l.plans && j in l.plans && l.plans[i].plan == p.plan && l.plans[j].plan == p.plan ==> i == j)
    && p.plan.build >= l.floor
    && p.plan.Tag() in published
    && forall run :: run in l.plans && l.plans[run].plan.Tag() != p.plan.Tag() && l.plans[run].plan.Tag() in published
         ==> l.plans[run].plan.build <= p.plan.build
  }

  ghost predicate MayBegin(l: Ledger, p: Publication, published: set<string>) {
    if p.promotion then PromotionInOrder(l, p, published) else ReservationStands(l, p, published)
  }

  // ----- the branch that stores it

  datatype ReadResult = ReadError | ReadOk(ledger: Ledger, previous: Option<Ledger>)

  /** An absent file on an existing branch is an error: the ledger was lost. */
  ghost function ReadState(file: Option<Ledger>, branch: bool): ReadResult {
    match file
    case None => if branch then ReadError else ReadOk(EMPTY, None)
    case Some(l) => if Readable(l) then ReadOk(l, file) else ReadError
  }

  /** The dedicated branch with its one file. Contents stand for their blob identity. */
  class LedgerBranch {
    var file: Option<Ledger>
    var branch: bool

    method EnsureBranch()
      modifies this`branch
      ensures branch
    {
      if !branch {
        branch := true;
      }
    }

    /** Compare and swap: refused unless the file is still the one that was read. */
    method Write(next: Ledger, previous: Option<Ledger>) returns (written: bool)
      modifies this`file
      ensures written == (branch && old(file) == previous)
      ensures file == if written then Some(next) else old(file)
    {
      written := branch && file == previous;
      if written {
        file := Some(next);
      }
    }

    /** The last steps of a reservation: the branch is there, so the write is refused for a changed file only. */
    method Record(next: Ledger, previous: Option<Ledger>) returns (written: bool)
      modifies this
      ensures branch && written == (old(file) == previous)
      ensures file == if written then Some(next) else old(file)
    {
      EnsureBranch();
      written := Write(next, previous);
    }
  }

  // ----- the unused sequence number

  function Prefix(base: string, channel: Channel): string {
    "v" + base + "-" + Name(channel) + "."
  }

  /** The number of a tag of this base and channel: text `[1-9][0-9]*` after the prefix. */
  function NumberOf(tag: string, prefix: string): Option<nat> {
    if prefix <= tag && IsNumeral(tag[|prefix|..]) && tag[|prefix|] != '0' then Some(Value(tag[|prefix|..])) else None
  }

  /** One more than every number in use, so that the tag it gives is not among `tags`. */
  method NextSequence(tags: seq<string>, base: string, channel: Channel) returns (next: nat)
    requires channel in {Beta, Rc}
    ensures next >= 1
    ensures forall tag :: tag in tags && NumberOf(tag, Prefix(base, channel)).Some? ==>
      NumberOf(tag, Prefix(base, channel)).value < next
    ensures next == 1 || exists tag :: tag in tags && NumberOf(tag, Prefix(base, channel)) == Some(next - 1)
    ensures IsFirstUnused(tags, base, channel, next)
  {
    next := 1;
    for i := 0 to |tags|
      invariant next >= 1
      invariant forall tag :: tag in tags[..i] && NumberOf(tag, Prefix(base, channel)).Some? ==>
        NumberOf(tag, Prefix(base, channel)).value < next
      invariant next == 1 || exists tag :: tag in tags && NumberOf(tag, Prefix(base, channel)) == Some(next - 1)
    {
      var number := NumberOf(tags[i], Prefix(base, channel));
      if number.Some? && number.value >= next {
        next := number.value + 1;
        assert tags[i] in tags;
      }
    }
    assert tags[..|tags|] == tags;
    forall n | n >= next ensures Tag(base, channel, Number(n)) !in tags {
      UnusedFromNext(tags, base, channel, next, n);
    }
    if next > 1 {
      var tag :| tag in tags && NumberOf(tag, Prefix(base, channel)) == Some(next - 1);
      NumberedTag(tag, base, channel, next - 1);
    }
  }

  /** No tag has this number or a larger one, and some tag has the one before it, unless that is zero. */
  ghost predicate IsFirstUnused(tags: seq<string>, base: string, channel: Channel, next: nat) {
    && next >= 1 && (forall n :: n >= next ==> Tag(base, channel, Number(n)) !in tags)
    && (next > 1 ==> Tag(base, channel, Number(next - 1)) in tags)
  }

  lemma {:induction false} TagText(base: string, channel: Channel, n: nat)
    requires channel in {Beta, Rc}
    ensures Tag(base, channel, Number(n)) == Prefix(base, channel) + Render(n)
  {
    hide Render;
    assert "v" + (base + "-" + Name(channel) + "." + Render(n)) == "v" + base + "-" + Name(channel) + "." + Render(n);
  }

  /** A tag with a number is the tag of that number. */
  lemma NumberedTag(tag: string, base: string, channel: Channel, n: nat)
    requires channel in {Beta, Rc} && NumberOf(tag, Prefix(base, channel)) == Some(n)
    ensures tag == Tag(base, channel, Number(n))
  {
    hide Tag, Prefix;
    var prefix := Prefix(base, channel);
    RenderOfValue(tag[|prefix|..]);
    assert tag == prefix + tag[|prefix|..];
    TagText(base, channel, n);
  }

  /** No number from `next` on names an existing tag of this base and channel. */
  lemma UnusedFromNext(tags: seq<string>, base: string, channel: Channel, next: nat, n: nat)
    requires channel in {Beta, Rc} && 1 <= next <= n
    requires forall tag :: tag in tags && NumberOf(tag, Prefix(base, channel)).Some? ==>
      NumberOf(tag, Prefix(base, channel)).value < next
    ensures Tag(base, channel, Number(n)) !in tags
  {
    hide Tag, Prefix;
    var tag := Tag(base, channel, Number(n));
    ValueOfRender(n);
    TagText(base, channel, n);
    assert tag[|Prefix(base, channel)|..] == Render(n);
    assert NumberOf(tag, Prefix(base, channel)) == Some(n);
  }
}
