/** Release identities as text, and the numeric projections of a build number. */
module ReleaseIdentity {
  import opened Basics
  import opened Decimal

  datatype Channel = Nightly | Beta | Rc | Stable

  datatype Sequence = NoSequence | Number(n: nat) | Stamp(text: string)

  /** Strict `X.Y.Z` without leading zeros. */
  ghost predicate IsBase(s: string) {
    exists x, y, z :: IsNumeral(x) && IsNumeral(y) && IsNumeral(z) && s == x + "." + y + "." + z
  }

  function Name(c: Channel): string {
    match c
    case Nightly => "nightly"
    case Beta => "beta"
    case Rc => "rc"
    case Stable => "stable"
  }

  predicate LeapYear(y: nat) { y % 4 == 0 && (y % 100 != 0 || y % 400 == 0) }

  function DaysIn(month: nat, year: nat): nat {
    if month in {4, 6, 9, 11} then 30
    else if month == 2 then if LeapYear(year) then 29 else 28
    else 31
  }

  /** Fourteen digits that name a calendar second. */
  predicate IsTimestamp(t: string) {
    && |t| == 14 && AllDigits(t)
    && var year, month, day := Value(t[..4]), Value(t[4..6]), Value(t[6..8]);
       && year >= 1 && 1 <= month <= 12 && 1 <= day <= DaysIn(month, year)
       && Value(t[8..10]) <= 23 && Value(t[10..12]) <= 59 && Value(t[12..14]) <= 59
  }

  function StampText(t: string, run: nat, attempt: nat): string {
    t + "." + Render(run) + "." + Render(attempt)
  }

  ghost predicate IsStamp(s: string) {
    exists t, run, attempt :: IsTimestamp(t) && run > 0 && attempt > 0 && s == StampText(t, run, attempt)
  }

  ghost predicate Acceptable(base: string, channel: Channel, sequence: Sequence) {
    && IsBase(base)
    && match channel
       case Stable => sequence.NoSequence?
       case Nightly => sequence.Stamp? && IsStamp(sequence.text)
       case _ => sequence.Number? && sequence.n > 0
  }

  function SequenceText(sequence: Sequence): string {
    match sequence
    case NoSequence => ""
    case Number(n) => Render(n)
    case Stamp(text) => text
  }

  function Version(base: string, channel: Channel, sequence: Sequence): string {
    if channel.Stable? then base else base + "-" + Name(channel) + "." + SequenceText(sequence)
  }

  function Tag(base: string, channel: Channel, sequence: Sequence): string {
    "v" + Version(base, channel, sequence)
  }

  // ----- different identities never share a tag

  lemma SplitAtFirst(a: string, x: string, b: string, y: string, c: char)
    requires a + [c] + x == b + [c] + y && c !in a && c !in b
    ensures a == b && x == y
  {
    var s := a + [c] + x;
    assert s[|a|] == c && forall i :: 0 <= i < |a| ==> s[i] == a[i] && s[i] != c;
    assert s == b + [c] + y;
    assert s[|b|] == c && forall i :: 0 <= i < |b| ==> s[i] == b[i] && s[i] != c;
    assert |a| == |b|;
    assert a == s[..|a|] && b == s[..|b|];
    assert x == s[|a| + 1..] && y == s[|b| + 1..];
  }

  lemma BaseHasNoHyphen(base: string)
    requires IsBase(base)
    ensures '-' !in base
  {
    var x, y, z :| IsNumeral(x) && IsNumeral(y) && IsNumeral(z) && base == x + "." + y + "." + z;
    assert forall c :: c in base ==> c in x || c in "." || c in y || c in z;
  }

  lemma NameInjective(c: Channel, d: Channel)
    requires Name(c) == Name(d)
    ensures c == d
  {
    assert |Name(Nightly)| == 7 && |Name(Beta)| == 4 && |Name(Rc)| == 2 && |Name(Stable)| == 6;
  }

  lemma NameHasNoDot(c: Channel)
    ensures '.' !in Name(c)
  {
  }

  lemma PrereleaseInjective(b1: string, n1: string, t1: string, b2: string, n2: string, t2: string)
    requires '-' !in b1 && '-' !in b2 && '.' !in n1 && '.' !in n2
    requires b1 + "-" + n1 + "." + t1 == b2 + "-" + n2 + "." + t2
    ensures b1 == b2 && n1 == n2 && t1 == t2
  {
    var r1, r2 := n1 + "." + t1, n2 + "." + t2;
    assert b1 + ['-'] + r1 == b1 + "-" + n1 + "." + t1;
    assert b2 + ['-'] + r2 == b2 + "-" + n2 + "." + t2;
    SplitAtFirst(b1, r1, b2, r2, '-');
    SplitAtFirst(n1, t1, n2, t2, '.');
  }

  lemma StableHasNoHyphen(base: string, channel: Channel, sequence: Sequence)
    requires IsBase(base)
    ensures '-' in Version(base, channel, sequence) <==> !channel.Stable?
  {
    BaseHasNoHyphen(base);
    if !channel.Stable? {
      assert Version(base, channel, sequence)[|base|] == '-';
    }
  }

  /** A tag determines its base version, channel and sequence. */
  lemma TagInjective(b1: string, c1: Channel, s1: Sequence, b2: string, c2: Channel, s2: Sequence)
    requires Acceptable(b1, c1, s1) && Acceptable(b2, c2, s2)
    requires Tag(b1, c1, s1) == Tag(b2, c2, s2)
    ensures b1 == b2 && c1 == c2 && s1 == s2
  {
    assert Version(b1, c1, s1) == Tag(b1, c1, s1)[1..] && Version(b2, c2, s2) == Tag(b2, c2, s2)[1..];
    StableHasNoHyphen(b1, c1, s1);
    StableHasNoHyphen(b2, c2, s2);
    if !c1.Stable? {
      BaseHasNoHyphen(b1);
      BaseHasNoHyphen(b2);
      NameHasNoDot(c1);
      NameHasNoDot(c2);
      PrereleaseInjective(b1, Name(c1), SequenceText(s1), b2, Name(c2), SequenceText(s2));
      NameInjective(c1, c2);
      if s1.Number? {
        RenderInjective(s1.n, s2.n);
      }
    }
  }

  lemma DigitsHaveNoDot(s: string)
    requires AllDigits(s)
    ensures '.' !in s
  {
  }

  /** The run part of a stamp is found from its end, whatever stands before it. */
  lemma StampRun(t: string, run: nat, attempt: nat, t': string, run': nat, attempt': nat)
    requires StampText(t, run, attempt) == StampText(t', run', attempt')
    ensures t == t' && run == run'
  {
    ValueOfRender(attempt);
    ValueOfRender(attempt');
    ValueOfRender(run);
    ValueOfRender(run');
    DigitsHaveNoDot(Render(attempt));
    DigitsHaveNoDot(Render(attempt'));
    DigitsHaveNoDot(Render(run));
    DigitsHaveNoDot(Render(run'));
    SplitAtLast(t + "." + Render(run), Render(attempt), t' + "." + Render(run'), Render(attempt'), '.');
    SplitAtLast(t, Render(run), t', Render(run'), '.');
    RenderInjective(run, run');
  }

  lemma SplitAtLast(a: string, x: string, b: string, y: string, c: char)
    requires a + [c] + x == b + [c] + y && c !in x && c !in y
    ensures a == b && x == y
  {
    var s := a + [c] + x;
    assert s[|a|] == c && forall i :: |a| < i < |s| ==> s[i] == x[i - |a| - 1] && s[i] != c;
    assert s == b + [c] + y;
    assert s[|b|] == c && forall i :: |b| < i < |s| ==> s[i] == y[i - |b| - 1] && s[i] != c;
    assert |a| == |b|;
    assert a == s[..|a|] && b == s[..|b|];
    assert x == s[|a| + 1..] && y == s[|b| + 1..];
  }

  // ----- numeric projections

  datatype AppleBuild = AppleBuild(major: nat, minor: nat, patch: nat)

  function Apple(build: nat): Option<AppleBuild> {
    if 0 < build <= 99_990_000 then
      var n := build - 1;
      Some(AppleBuild(n / 10000 + 1, n / 100 % 100, n % 100))
    else None
  }

  predicate Precedes(a: AppleBuild, b: AppleBuild) {
    a.major < b.major || (a.major == b.major && (a.minor < b.minor || (a.minor == b.minor && a.patch < b.patch)))
  }

  lemma Digits100(n: nat)
    ensures n == 10000 * (n / 10000) + 100 * (n / 100 % 100) + n % 100
  {
    assert n / 100 == 100 * (n / 10000) + n / 100 % 100;
  }

  /** A larger build number has a lexicographically larger Apple triple, within its component bounds. */
  lemma AppleGrows(a: nat, b: nat)
    requires 0 < a < b <= 99_990_000
    ensures Precedes(Apple(a).value, Apple(b).value)
    ensures Apple(b).value.major <= 9999 && Apple(b).value.minor <= 99 && Apple(b).value.patch <= 99
  {
    Digits100(a - 1);
    Digits100(b - 1);
  }

  /** The PEP 440 number of a nightly; attempts stay below one million. */
  function NightlyNumber(run: nat, attempt: nat): Option<nat> {
    var number := run * 1_000_000 + attempt;
    if attempt < 1_000_000 && number <= 0xFFFF_FFFF_FFFF_FFFE then Some(number) else None
  }

  /** It orders nightlies by run and then by attempt, and so never names two of them. */
  lemma NightlyNumberOrders(run: nat, attempt: nat, run': nat, attempt': nat)
    requires NightlyNumber(run, attempt).Some? && NightlyNumber(run', attempt').Some?
    ensures NightlyNumber(run, attempt).value < NightlyNumber(run', attempt').value
      <==> run < run' || (run == run' && attempt < attempt')
  {
    if run < run' {
      assert (run + 1) * 1_000_000 <= run' * 1_000_000;
    } else if run' < run {
      assert (run' + 1) * 1_000_000 <= run * 1_000_000;
    }
  }
}
