/** What a valid plan and its tag say, as text: a version of three numbers, and for a pre-release its number or its moment. */
module ReleaseNames {
  import opened Basics
  import opened Decimal
  import opened ReleaseIdentity
  import opened ReleaseLedger

  // ----- the calendar

  const DAYS: seq<nat> := [31, 28, 31, 30, 31, 30, 31, 31, 30, 31, 30, 31]

  /** The days of the Gregorian calendar before a year. */
  function DaysBefore(year: nat): int
    requires year >= 1
  {
    365 * (year - 1) + (year - 1) / 4 - (year - 1) / 100 + (year - 1) / 400
  }

  function DaysOfYear(year: nat): int
    requires year >= 1
  {
    DaysBefore(year + 1) - DaysBefore(year)
  }

  function MonthLength(month: nat, year: nat): int
    requires 1 <= month <= 12 && year >= 1
  {
    DAYS[month - 1] + if month == 2 then DaysOfYear(year) - 365 else 0
  }

  lemma OneMore(n: nat)
    ensures (n + 1) / 4 - n / 4 == if (n + 1) % 4 == 0 then 1 else 0
    ensures (n + 1) / 100 - n / 100 == if (n + 1) % 100 == 0 then 1 else 0
    ensures (n + 1) / 400 - n / 400 == if (n + 1) % 400 == 0 then 1 else 0
  {
  }

  /** A leap year has a day more. */
  lemma YearsAre(year: nat)
    requires year >= 1
    ensures DaysOfYear(year) == if LeapYear(year) then 366 else 365
  {
    OneMore(year - 1);
    Hundreds(year);
  }

  lemma Hundreds(year: nat)
    ensures year % 100 == 0 ==> year % 4 == 0
  {
    if year % 100 == 0 {
      Multiple(year, 25 * (year / 100));
    }
  }

  lemma Multiple(n: nat, k: nat)
    requires n == 4 * k
    ensures n % 4 == 0
  {
  }

  lemma MonthsAre(month: nat, year: nat)
    requires 1 <= month <= 12 && year >= 1
    ensures MonthLength(month, year) == DaysIn(month, year)
  {
    hide DaysBefore, LeapYear;
    YearsAre(year);
  }

  // ----- digits of a given number

  function Padded(n: nat, width: nat): string {
    if width == 0 then "" else Padded(n / 10, width - 1) + [(n % 10) as char + '0']
  }

  function Limit(width: nat): nat { if width == 0 then 1 else 10 * Limit(width - 1) }

  lemma {:induction false} PaddedReads(n: nat, width: nat)
    requires n < Limit(width)
    ensures |Padded(n, width)| == width && AllDigits(Padded(n, width)) && Value(Padded(n, width)) == n
  {
    if width > 0 {
      PaddedReads(n / 10, width - 1);
      var s := Padded(n, width);
      assert s[..|s| - 1] == Padded(n / 10, width - 1) && s[|s| - 1] == (n % 10) as char + '0';
    }
  }

  lemma {:induction false} DigitsArePadded(s: string)
    requires AllDigits(s)
    ensures Value(s) < Limit(|s|) && s == Padded(Value(s), |s|)
  {
    if s != "" {
      DigitsArePadded(s[..|s| - 1]);
      assert s == s[..|s| - 1] + [s[|s| - 1]];
      assert Value(s) / 10 == Value(s[..|s| - 1]) && Value(s) % 10 == (s[|s| - 1] - '0') as nat;
    }
  }

  /** A number whose last digits are another's. */
  lemma {:induction false} RenderPadded(n: nat, a: nat, width: nat)
    requires n > 0 && a < Limit(width)
    ensures Render(n * Limit(width) + a) == Render(n) + Padded(a, width)
  {
    if width == 0 {
      assert Render(n) + "" == Render(n);
    } else {
      TenTimes(n, a, Limit(width - 1));
      RenderPadded(n, a / 10, width - 1);
      Regroup(Render(n), Padded(a / 10, width - 1), [(a % 10) as char + '0']);
    }
  }

  lemma TenTimes(n: nat, a: nat, limit: nat)
    requires n > 0 && limit > 0 && a < 10 * limit
    ensures var v := n * (10 * limit) + a; v >= 10 && v / 10 == n * limit + a / 10 && v % 10 == a % 10
  {
    assert n * (10 * limit) == 10 * (n * limit) && n * limit >= 1;
  }

  /** The Apple triple counts on from 1.0.0 in hundreds, and the number of a nightly is its run with six digits of its attempt. */
  lemma {:induction false} ProjectionsExactly(build: nat, run: nat, attempt: nat)
    ensures Apple(build).Some? <==> 1 <= build <= 99_990_000
    ensures Apple(build).Some? ==>
      var a := Apple(build).value;
      a.minor <= 99 && a.patch <= 99 && (a.major - 1) * 10_000 + a.minor * 100 + a.patch + 1 == build
    ensures NightlyNumber(run, attempt).Some? <==> attempt <= 999_999 && run * 1_000_000 + attempt < 0xFFFF_FFFF_FFFF_FFFF
    ensures run > 0 && NightlyNumber(run, attempt).Some? ==>
      Render(NightlyNumber(run, attempt).value) == Render(run) + Padded(attempt, 6)
  {
    if build > 0 {
      Digits100(build - 1);
    }
    if run > 0 && attempt <= 999_999 {
      SixDigits();
      RenderPadded(run, attempt, 6);
    }
  }

  lemma SixDigits()
    ensures Limit(6) == 1_000_000
  {
    assert Limit(2) == 100 by { assert Limit(1) == 10 * Limit(0); }
    assert Limit(4) == 10_000 by { assert Limit(3) == 10 * Limit(2); }
    assert Limit(5) == 10 * Limit(4);
  }

  // ----- moments

  datatype Moment = Moment(year: nat, month: nat, day: nat, hour: nat, minute: nat, second: nat)

  /** A second of the calendar. */
  predicate IsMoment(m: Moment) {
    && 1 <= m.year <= 9999 && 1 <= m.month <= 12 && 1 <= m.day <= MonthLength(m.month, m.year)
    && m.hour < 24 && m.minute < 60 && m.second < 60
  }

  function MomentText(m: Moment): string {
    Padded(m.year, 4) + Padded(m.month, 2) + Padded(m.day, 2) + Padded(m.hour, 2) + Padded(m.minute, 2) + Padded(m.second, 2)
  }

  function MomentOf(t: string): Moment
    requires |t| == 14 && AllDigits(t)
  {
    Moment(Value(t[..4]), Value(t[4..6]), Value(t[6..8]), Value(t[8..10]), Value(t[10..12]), Value(t[12..14]))
  }

  lemma Limits()
    ensures Limit(2) == 100 && Limit(4) == 10000
  {
    assert Limit(1) == 10 * Limit(0) && Limit(2) == 10 * Limit(1) && Limit(3) == 10 * Limit(2);
  }

  lemma MomentReads(t: string)
    requires |t| == 14 && AllDigits(t)
    ensures MomentText(MomentOf(t)) == t
    ensures IsTimestamp(t) <==> IsMoment(MomentOf(t))
  {
    hide Padded, Value, LeapYear, DaysIn, MonthLength;
    Limits();
    DigitsArePadded(t[..4]);
    DigitsArePadded(t[4..6]);
    DigitsArePadded(t[6..8]);
    DigitsArePadded(t[8..10]);
    DigitsArePadded(t[10..12]);
    DigitsArePadded(t[12..14]);
    Slices(t);
    var m := MomentOf(t);
    if m.year >= 1 && 1 <= m.month <= 12 {
      MonthsAre(m.month, m.year);
    }
  }

  lemma Slices(t: string)
    requires |t| == 14
    ensures t == t[..4] + t[4..6] + t[6..8] + t[8..10] + t[10..12] + t[12..14]
  {
  }

  lemma MomentFits(m: Moment)
    requires IsMoment(m)
    ensures var t := MomentText(m); |t| == 14 && AllDigits(t) && MomentOf(t) == m
  {
    hide Padded, Value;
    Limits();
    DayFits(m);
    PaddedReads(m.year, 4);
    PaddedReads(m.month, 2);
    PaddedReads(m.day, 2);
    PaddedReads(m.hour, 2);
    PaddedReads(m.minute, 2);
    PaddedReads(m.second, 2);
    var t := MomentText(m);
    assert t[..4] == Padded(m.year, 4) && t[4..6] == Padded(m.month, 2) && t[6..8] == Padded(m.day, 2);
    assert t[8..10] == Padded(m.hour, 2) && t[10..12] == Padded(m.minute, 2) && t[12..14] == Padded(m.second, 2);
  }

  lemma DayFits(m: Moment)
    requires IsMoment(m)
    ensures m.day < 100
  {
    YearsAre(m.year);
  }

  /** Timestamps are the texts of calendar seconds of the years 1 to 9999. */
  lemma TimestampExactly(t: string)
    ensures IsTimestamp(t) <==> exists m :: IsMoment(m) && t == MomentText(m)
  {
    hide IsMoment, MomentText;
    if |t| == 14 && AllDigits(t) {
      MomentReads(t);
    }
    if m :| IsMoment(m) && t == MomentText(m) {
      MomentFits(m);
      MomentReads(t);
    }
  }

  // ----- plans and their tags

  function VersionText(x: nat, y: nat, z: nat): string { Render(x) + "." + Render(y) + "." + Render(z) }

  lemma BaseExactly(base: string)
    ensures IsBase(base) <==> exists x, y, z :: base == VersionText(x, y, z)
  {
    if IsBase(base) {
      var x, y, z :| IsNumeral(x) && IsNumeral(y) && IsNumeral(z) && base == x + "." + y + "." + z;
      RenderOfValue(x);
      RenderOfValue(y);
      RenderOfValue(z);
      assert base == VersionText(Value(x), Value(y), Value(z));
    }
    if x, y, z :| base == VersionText(x, y, z) {
      ValueOfRender(x);
      ValueOfRender(y);
      ValueOfRender(z);
    }
  }

  predicate IsHex(s: string, length: nat) { |s| == length && forall i :: 0 <= i < |s| ==> s[i] in "0123456789abcdef" }

  lemma HexExactly(s: string, n: nat)
    ensures IsLowerHex(s, n) <==> IsHex(s, n)
  {
    forall c: char ensures c in "0123456789abcdef" <==> '0' <= c <= '9' || 'a' <= c <= 'f' {
      if '0' <= c <= '9' {
        assert "0123456789abcdef"[(c - '0') as int] == c;
      }
      if 'a' <= c <= 'f' {
        assert "0123456789abcdef"[10 + (c - 'a') as int] == c;
      }
    }
  }

  /** A moment, a run and an attempt, as a nightly names them. */
  ghost predicate IsRunAt(s: string, m: Moment, run: nat, attempt: nat) {
    IsMoment(m) && run >= 1 && attempt >= 1 && s == MomentText(m) + "." + Render(run) + "." + Render(attempt)
  }

  /** What follows the version in a tag. */
  ghost predicate IsSuffix(p: Plan, suffix: string) {
    match p.channel
    case Stable => p.sequence.NoSequence? && suffix == ""
    case Beta => p.sequence.Number? && p.sequence.n >= 1 && suffix == "-beta." + Render(p.sequence.n)
    case Rc => p.sequence.Number? && p.sequence.n >= 1 && suffix == "-rc." + Render(p.sequence.n)
    case Nightly =>
      && p.sequence.Stamp? && suffix == "-nightly." + p.sequence.text
      && exists m, run, attempt :: IsRunAt(p.sequence.text, m, run, attempt)
  }

  lemma StampExactly(s: string)
    ensures IsStamp(s) <==> exists m, run, attempt :: IsRunAt(s, m, run, attempt)
  {
    hide IsMoment, MomentText, IsTimestamp;
    if IsStamp(s) {
      var t, run, attempt :| IsTimestamp(t) && run > 0 && attempt > 0 && s == StampText(t, run, attempt);
      TimestampExactly(t);
      var m :| IsMoment(m) && t == MomentText(m);
      assert IsRunAt(s, m, run, attempt);
    }
    if m, run, attempt :| IsRunAt(s, m, run, attempt) {
      TimestampExactly(MomentText(m));
      assert IsTimestamp(MomentText(m)) && s == StampText(MomentText(m), run, attempt);
    }
  }

  function SuffixOf(p: Plan): string { if p.channel.Stable? then "" else "-" + Name(p.channel) + "." + SequenceText(p.sequence) }

  lemma SuffixNames(p: Plan)
    ensures p.channel.Nightly? ==> SuffixOf(p) == "-nightly." + SequenceText(p.sequence)
    ensures p.channel.Beta? ==> SuffixOf(p) == "-beta." + SequenceText(p.sequence)
    ensures p.channel.Rc? ==> SuffixOf(p) == "-rc." + SequenceText(p.sequence)
  {
    hide SequenceText;
  }

  lemma TagAdds(p: Plan)
    ensures p.Tag() == "v" + (p.base + SuffixOf(p))
  {
    hide SequenceText;
    if p.channel.Stable? {
      assert p.base + "" == p.base;
    } else {
      Regroup(p.base, "-", Name(p.channel));
      Regroup(p.base, "-" + Name(p.channel), ".");
      Regroup(p.base, "-" + Name(p.channel) + ".", SequenceText(p.sequence));
    }
  }

  lemma SuffixExactly(p: Plan)
    requires IsBase(p.base)
    ensures Acceptable(p.base, p.channel, p.sequence) <==> IsSuffix(p, SuffixOf(p))
    ensures forall suffix :: IsSuffix(p, suffix) ==> suffix == SuffixOf(p)
  {
    hide IsBase, IsStamp, IsRunAt, SuffixOf, Render;
    SuffixNames(p);
    SuffixStable(p);
    if p.sequence.Stamp? {
      StampExactly(p.sequence.text);
    }
  }

  lemma SuffixStable(p: Plan)
    ensures p.channel.Stable? ==> SuffixOf(p) == ""
  {
  }

  /** A plan is valid exactly when its tag is a version of three numbers with the suffix of its channel, and its other fields fit. */
  lemma PlanExactly(p: Plan)
    ensures ValidPlan(p) <==>
      && (exists x, y, z, suffix :: p.base == VersionText(x, y, z) && IsSuffix(p, suffix) && p.Tag() == "v" + (VersionText(x, y, z) + suffix))
      && IsHex(p.sourceSha, 40) && IsHex(p.policyDigest, 64) && 1 <= p.build <= 2_100_000_000
  {
    hide IsBase, VersionText, IsSuffix, IsHex, IsLowerHex, Plan.Tag, SuffixOf;
    BaseExactly(p.base);
    HexExactly(p.sourceSha, 40);
    HexExactly(p.policyDigest, 64);
    if IsBase(p.base) {
      SuffixExactly(p);
      TagAdds(p);
    }
  }
}
