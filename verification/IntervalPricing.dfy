/**
 Pricing of measured import intervals against a tariff, in whole minutes: a file of intervals is normalised,
 the first minutes of the period's days are searched for, and each interval is priced, refused or left out.
 Energy and prices are reals; `dateOf` gives the local calendar day of a minute.
 */
module IntervalPricing {
  import opened Basics

  datatype Interval = Interval(start: int, end: int, kwh: real)

  /** A row as imported: a malformed time or amount is absent. */
  datatype Row = Row(start: Option<int>, end: Option<int>, kwh: Option<real>)

  const DAY := 1440
  const MAX_ROWS := 20000
  const MAX_DAYS := 366

  // ----- normalising

  predicate ValidRow(r: Row) {
    && r.start.Some? && r.end.Some? && r.kwh.Some?
    && 0 < r.end.value - r.start.value <= 60 && r.kwh.value >= 0.0
  }

  function IntervalOf(r: Row): Interval
    requires ValidRow(r)
  {
    Interval(r.start.value, r.end.value, r.kwh.value)
  }

  predicate Positive(xs: seq<Interval>) { forall x :: x in xs ==> x.start < x.end }

  predicate Apart(x: Interval, y: Interval) { x.end <= y.start || y.end <= x.start }

  /** No two of them overlap, in whatever order they come. */
  predicate AllApart(xs: seq<Interval>) {
    xs == [] || ((forall y :: y in xs[1..] ==> Apart(xs[0], y)) && AllApart(xs[1..]))
  }

  predicate WithinSpan(xs: seq<Interval>) {
    forall x, y :: x in xs && y in xs ==> y.end - x.start <= MAX_DAYS * DAY
  }

  /** What a normalised file holds. */
  predicate Normal(xs: seq<Interval>) {
    && (forall i :: 0 <= i < |xs| ==> 0 < xs[i].end - xs[i].start <= 60 && xs[i].kwh >= 0.0)
    && (forall i, j :: 0 <= i < j < |xs| ==> xs[i].end <= xs[j].start)
  }

  predicate ByStart(xs: seq<Interval>) { forall i, j :: 0 <= i < j < |xs| ==> xs[i].start <= xs[j].start }

  function Insert(x: Interval, xs: seq<Interval>): seq<Interval> {
    if xs == [] || x.start <= xs[0].start then [x] + xs else [xs[0]] + Insert(x, xs[1..])
  }

  function Sorted(xs: seq<Interval>): seq<Interval> { if xs == [] then [] else Insert(xs[0], Sorted(xs[1..])) }

  lemma {:induction false} InsertMembers(x: Interval, xs: seq<Interval>)
    ensures multiset(Insert(x, xs)) == multiset([x] + xs)
    ensures forall y :: y in Insert(x, xs) <==> y == x || y in xs
  {
    if xs != [] && x.start > xs[0].start {
      InsertMembers(x, xs[1..]);
      assert xs == [xs[0]] + xs[1..];
      assert multiset([x] + xs) == multiset([xs[0]]) + multiset([x] + xs[1..]);
    }
  }

  lemma {:induction false} InsertSorts(x: Interval, xs: seq<Interval>)
    requires ByStart(xs)
    ensures ByStart(Insert(x, xs))
  {
    if xs != [] && x.start > xs[0].start {
      InsertSorts(x, xs[1..]);
      InsertMembers(x, xs[1..]);
      assert forall y :: y in Insert(x, xs[1..]) ==> xs[0].start <= y.start;
    }
  }

  lemma {:induction false} FirstApart(x: Interval, xs: seq<Interval>)
    ensures AllApart([x] + xs) <==> (forall y :: y in xs ==> Apart(x, y)) && AllApart(xs)
  {
    assert ([x] + xs)[1..] == xs;
  }

  lemma {:induction false} InsertApart(x: Interval, xs: seq<Interval>)
    ensures AllApart(Insert(x, xs)) <==> AllApart([x] + xs)
  {
    if xs != [] && x.start > xs[0].start {
      var (first, rest) := (xs[0], xs[1..]);
      assert xs == [first] + rest;
      InsertApart(x, rest);
      InsertMembers(x, rest);
      FirstApart(first, Insert(x, rest));
      FirstApart(first, rest);
      FirstApart(x, rest);
      FirstApart(x, xs);
      assert forall y :: y in xs <==> y == first || y in rest;
      assert Apart(x, first) <==> Apart(first, x);
    }
  }

  lemma {:induction false} SortedSorts(xs: seq<Interval>)
    ensures ByStart(Sorted(xs)) && multiset(Sorted(xs)) == multiset(xs)
    ensures AllApart(Sorted(xs)) <==> AllApart(xs)
  {
    if xs != [] {
      var rest := Sorted(xs[1..]);
      SortedSorts(xs[1..]);
      InsertSorts(xs[0], rest);
      InsertMembers(xs[0], rest);
      InsertApart(xs[0], rest);
      assert xs == [xs[0]] + xs[1..];
      SameMembers(rest, xs[1..]);
      FirstApart(xs[0], rest);
      FirstApart(xs[0], xs[1..]);
    }
  }

  lemma SameMembers(xs: seq<Interval>, ys: seq<Interval>)
    requires multiset(xs) == multiset(ys)
    ensures forall y :: y in xs <==> y in ys
  {
    forall y ensures y in xs <==> y in ys {
      assert y in xs <==> y in multiset(xs);
    }
  }

  /** Each sorted interval ends before the next begins. */
  predicate InTurn(xs: seq<Interval>) { forall i :: 1 <= i < |xs| ==> xs[i - 1].end <= xs[i].start }

  lemma {:induction false} ApartByIndex(xs: seq<Interval>)
    ensures AllApart(xs) <==> forall i, j :: 0 <= i < j < |xs| ==> Apart(xs[i], xs[j])
  {
    hide Apart;
    if xs != [] {
      var rest := xs[1..];
      assert forall i :: 0 <= i < |rest| ==> rest[i] == xs[i + 1];
      ApartByIndex(rest);
    }
  }

  lemma {:induction false} TurnsAreApart(xs: seq<Interval>)
    requires ByStart(xs) && Positive(xs)
    ensures AllApart(xs) <==> InTurn(xs)
    ensures InTurn(xs) ==> forall i, j :: 0 <= i < j < |xs| ==> xs[i].end <= xs[j].start
  {
    hide AllApart, InTurn, Positive;
    ApartByIndex(xs);
    if InTurn(xs) {
      TurnsInOrder(xs);
    } else {
      OverlapSeen(xs);
    }
  }

  lemma TurnsInOrder(xs: seq<Interval>)
    requires ByStart(xs) && InTurn(xs)
    ensures forall i, j :: 0 <= i < j < |xs| ==> xs[i].end <= xs[j].start
  {
    forall i, j | 0 <= i < j < |xs| ensures xs[i].end <= xs[j].start {
      assert xs[(i + 1) - 1].end <= xs[i + 1].start;
    }
  }

  lemma OverlapSeen(xs: seq<Interval>)
    requires ByStart(xs) && Positive(xs) && !InTurn(xs)
    ensures exists i, j :: 0 <= i < j < |xs| && !Apart(xs[i], xs[j])
  {
    var i :| 1 <= i < |xs| && xs[i - 1].end > xs[i].start;
    assert xs[i - 1] in xs && xs[i] in xs;
    assert !Apart(xs[i - 1], xs[i]);
  }

  /** A file is accepted exactly when it has 1 to 20,000 good rows, no two overlap and no two lie more than 366 days apart. */
  predicate Acceptable(rows: seq<Row>) {
    && 1 <= |rows| <= MAX_ROWS
    && (forall r :: r in rows ==> ValidRow(r))
    && AllApart(Intervals(rows)) && WithinSpan(Intervals(rows))
  }

  function Intervals(rows: seq<Row>): seq<Interval>
    requires forall r :: r in rows ==> ValidRow(r)
  {
    seq(|rows|, i requires 0 <= i < |rows| => IntervalOf(rows[i]))
  }

  method MapRows(rows: seq<Row>) returns (mapped: Option<seq<Interval>>)
    ensures mapped.Some? <==> forall r :: r in rows ==> ValidRow(r)
    ensures mapped.Some? ==> mapped.value == Intervals(rows)
  {
    var xs: seq<Interval> := [];
    for i := 0 to |rows|
      invariant forall k :: 0 <= k < i ==> ValidRow(rows[k])
      invariant |xs| == i && forall k :: 0 <= k < i ==> xs[k] == IntervalOf(rows[k])
    {
      if !ValidRow(rows[i]) {
        return None;
      }
      xs := xs + [IntervalOf(rows[i])];
    }
    assert xs == Intervals(rows);
    return Some(xs);
  }

  method TakesTurns(sorted: seq<Interval>) returns (ok: bool)
    ensures ok == InTurn(sorted)
  {
    if |sorted| == 0 {
      return true;
    }
    for i := 1 to |sorted|
      invariant forall k :: 1 <= k < i ==> sorted[k - 1].end <= sorted[k].start
    {
      if sorted[i].start < sorted[i - 1].end {
        return false;
      }
    }
    return true;
  }

  method Normalise(rows: seq<Row>) returns (file: Option<seq<Interval>>)
    ensures file.Some? <==> Acceptable(rows)
    ensures file.Some? ==> Normal(file.value) && multiset(file.value) == multiset(Intervals(rows))
  {
    if |rows| == 0 || |rows| > MAX_ROWS {
      return None;
    }
    var mapped := MapRows(rows);
    if mapped.None? {
      return None;
    }
    var sorted := Sorted(mapped.value);
    SortedSorts(mapped.value);
    SortedRows(rows, sorted);
    var ok := TakesTurns(sorted);
    if !ok {
      return None;
    }
    SpanOfSorted(rows, sorted);
    if sorted[|sorted| - 1].end - sorted[0].start > MAX_DAYS * DAY {
      return None;
    }
    return Some(sorted);
  }

  lemma {:induction false} SortedRows(rows: seq<Row>, sorted: seq<Interval>)
    requires rows != [] && (forall r :: r in rows ==> ValidRow(r))
    requires ByStart(sorted) && multiset(sorted) == multiset(Intervals(rows))
    requires AllApart(sorted) <==> AllApart(Intervals(rows))
    ensures forall x :: x in sorted <==> x in Intervals(rows)
    ensures |sorted| == |rows| && forall x :: x in sorted ==> 0 < x.end - x.start <= 60 && x.kwh >= 0.0
    ensures AllApart(Intervals(rows)) <==> InTurn(sorted)
    ensures InTurn(sorted) ==> Normal(sorted)
  {
    assert |multiset(sorted)| == |multiset(Intervals(rows))|;
    SameMembers(sorted, Intervals(rows));
    forall x | x in sorted ensures 0 < x.end - x.start <= 60 && x.kwh >= 0.0 {
      var i :| 0 <= i < |rows| && Intervals(rows)[i] == x;
      assert rows[i] in rows;
    }
    TurnsAreApart(sorted);
  }

  lemma SpanOfSorted(rows: seq<Row>, sorted: seq<Interval>)
    requires forall r :: r in rows ==> ValidRow(r)
    requires sorted != [] && Normal(sorted) && forall x :: x in sorted <==> x in Intervals(rows)
    ensures WithinSpan(Intervals(rows)) <==> sorted[|sorted| - 1].end - sorted[0].start <= MAX_DAYS * DAY
  {
    var n := |sorted| - 1;
    assert sorted[n] in sorted && sorted[0] in sorted;
    forall x, y | x in sorted && y in sorted ensures sorted[0].start <= x.start && y.end <= sorted[n].end {
      var i :| 0 <= i < |sorted| && sorted[i] == x;
      var j :| 0 <= j < |sorted| && sorted[j] == y;
    }
  }

  // ----- the first minute of a local day

  /** A zone whose local date never goes back, though it may skip a day. */
  ghost predicate NeverBack(dateOf: int -> int) { forall a, b :: a <= b ==> dateOf(a) <= dateOf(b) }

  /** A zone within a day of UTC that skips no day; its clock may fall back across midnight, by less than a day. */
  ghost predicate SkipsNoDay(dateOf: int -> int) {
    && (forall m :: dateOf(m) * DAY - DAY <= m < dateOf(m) * DAY + 2 * DAY)
    && (forall a, b :: b == a + 1 ==> dateOf(b) <= dateOf(a) + 1)
    && (forall a, b :: a <= b ==> dateOf(a) <= dateOf(b) + 1)
  }

  ghost predicate DayExists(dateOf: int -> int, day: int) {
    exists m :: day * DAY - 2160 <= m <= day * DAY + 2160 && dateOf(m) == day
  }

  /** The local day begins at this minute: the one before, if it is searched at all, belongs to an earlier day. */
  predicate BeginsAt(dateOf: int -> int, day: int, m: int) {
    && day * DAY - 2160 <= m <= day * DAY + 2160 && dateOf(m) == day
    && (m == day * DAY - 2160 || dateOf(m - 1) < day)
  }

  /**
   A minute at which a local day begins, within a day and a half of that day's midnight in UTC: the first minute
   of the day where the date never goes back.
   */
  method FirstMinute(dateOf: int -> int, day: int) returns (minute: Option<int>)
    ensures minute.Some? ==> BeginsAt(dateOf, day, minute.value)
    ensures SkipsNoDay(dateOf) ==> minute.Some?
    ensures NeverBack(dateOf) ==> (minute.Some? <==> DayExists(dateOf, day))
    ensures NeverBack(dateOf) && minute.Some? ==> forall m :: day * DAY - 2160 <= m && dateOf(m) == day ==> minute.value <= m
  {
    var low, high := day * DAY - 2160, day * DAY + 2160;
    while low < high
      invariant day * DAY - 2160 <= low <= high <= day * DAY + 2160
      invariant low == day * DAY - 2160 || dateOf(low - 1) < day
      invariant high == day * DAY + 2160 || dateOf(high) >= day
    {
      var middle := (low + high) / 2;
      if dateOf(middle) < day {
        low := middle + 1;
      } else {
        high := middle;
      }
    }
    if NeverBack(dateOf) {
      FirstOfDay(dateOf, day, low);
    }
    if SkipsNoDay(dateOf) {
      FoundInZone(dateOf, day, low);
    }
    minute := if dateOf(low) == day then Some(low) else None;
  }

  /** Where the search ends: at the first minute of the day or a later one, if there is any. */
  lemma FirstOfDay(dateOf: int -> int, day: int, low: int)
    requires NeverBack(dateOf) && day * DAY - 2160 <= low <= day * DAY + 2160
    requires low == day * DAY - 2160 || dateOf(low - 1) < day
    requires low == day * DAY + 2160 || dateOf(low) >= day
    ensures dateOf(low) == day <==> DayExists(dateOf, day)
    ensures forall m :: day * DAY - 2160 <= m && dateOf(m) == day ==> low <= m
  {
    forall m | day * DAY - 2160 <= m && dateOf(m) == day ensures low <= m && (m <= day * DAY + 2160 ==> dateOf(low) == day) {
      assert m <= low - 1 ==> dateOf(m) <= dateOf(low - 1);
      assert low <= m ==> dateOf(low) <= dateOf(m);
    }
  }

  lemma FoundInZone(dateOf: int -> int, day: int, low: int)
    requires SkipsNoDay(dateOf) && day * DAY - 2160 <= low <= day * DAY + 2160
    requires low == day * DAY - 2160 || dateOf(low - 1) < day
    requires low == day * DAY + 2160 || dateOf(low) >= day
    ensures dateOf(low) == day
  {
    assert dateOf(low) <= dateOf(low - 1) + 1;
    assert dateOf(day * DAY - 2160) < day <= dateOf(day * DAY + 2160);
  }

  // ----- pricing

  datatype Treatment = Outside | Cut | Mixed | Priced

  predicate Uniform(price: int -> real, x: Interval) {
    forall m :: x.start <= m < x.end ==> price(m) == price(x.start)
  }

  /** Outside the period, cut by its ends, crossing a change of price, or priced. */
  function TreatmentOf(price: int -> real, from: int, to: int, x: Interval): Treatment {
    if x.end <= from || x.start >= to then Outside
    else if x.start < from || x.end > to then Cut
    else if Uniform(price, x) then Priced
    else Mixed
  }

  function Clip(from: int, to: int, m: int): int {
    if m <= from then from else if m >= to then to else m
  }

  /** The length of an interval that reaches into the period, clipped to it. */
  function Length(from: int, to: int, x: Interval): int {
    (if x.end < to then x.end else to) - (if x.start > from then x.start else from)
  }

  datatype Totals = Totals(cost: real, kwh: real, priced: int, recorded: int, unpriced: nat)

  function Add(price: int -> real, from: int, to: int, t: Totals, x: Interval): Totals {
    match TreatmentOf(price, from, to, x)
    case Outside => t
    case Priced =>
      Totals(t.cost + x.kwh * price(x.start), t.kwh + x.kwh, t.priced + (x.end - x.start), t.recorded + (x.end - x.start), t.unpriced)
    case _ => t.(recorded := t.recorded + Length(from, to, x), unpriced := t.unpriced + 1)
  }

  const ZERO := Totals(0.0, 0.0, 0, 0, 0)

  function TotalsOf(price: int -> real, from: int, to: int, xs: seq<Interval>): Totals {
    if xs == [] then ZERO
    else Add(price, from, to, TotalsOf(price, from, to, xs[..|xs| - 1]), xs[|xs| - 1])
  }

  datatype Report = Report(cost: Option<real>, kwh: real, priced: int, recorded: int, expected: int,
                           missing: int, unpriced: nat, complete: bool)

  method PriceAt(price: int -> real, x: Interval) returns (rate: Option<real>)
    requires x.start < x.end
    ensures rate == if Uniform(price, x) then Some(price(x.start)) else None
  {
    var first := price(x.start);
    var m := x.start + 1;
    while m < x.end
      invariant x.start < m <= x.end
      invariant forall k :: x.start <= k < m ==> price(k) == first
    {
      if price(m) != first {
        return None;
      }
      m := m + 1;
    }
    return Some(first);
  }

  /**
   The report for a period of local days, from a minute at which its first day begins to one at which the day
   after its last begins; absent when a day is not found or the period is empty or too long.
   */
  method PricePeriod(price: int -> real, dateOf: int -> int, xs: seq<Interval>, first: int, last: int)
    returns (report: Option<Report>, ghost from: int, ghost to: int)
    requires Normal(xs)
    ensures report.Some? ==>
      && 1 <= last - first + 1 <= MAX_DAYS && DayExists(dateOf, last)
      && BeginsAt(dateOf, first, from) && BeginsAt(dateOf, last + 1, to)
      && report.value == ReportOf(price, from, to, xs)
    ensures NeverBack(dateOf) ==> (report.Some? <==>
      1 <= last - first + 1 <= MAX_DAYS && DayExists(dateOf, first) && DayExists(dateOf, last) && DayExists(dateOf, last + 1))
    ensures SkipsNoDay(dateOf) ==> (report.Some? <==> 1 <= last - first + 1 <= MAX_DAYS)
    ensures report.Some? && (NeverBack(dateOf) || SkipsNoDay(dateOf)) ==> from < to
  {
    from, to := 0, 0;
    var start := FirstMinute(dateOf, first);
    var check := FirstMinute(dateOf, last);
    if start.None? || check.None? || !(1 <= last - first + 1 <= MAX_DAYS) {
      return None, 0, 0;
    }
    var end := FirstMinute(dateOf, last + 1);
    if end.None? {
      return None, 0, 0;
    }
    from, to := start.value, end.value;
    if NeverBack(dateOf) || SkipsNoDay(dateOf) {
      PeriodForward(dateOf, first, last, from, to);
    }
    var totals := SumIntervals(price, start.value, end.value, xs);
    var expected := end.value - start.value;
    report := Some(Report(
      if totals.priced != 0 then Some(totals.cost) else None, totals.kwh, totals.priced, totals.recorded, expected,
      expected - totals.recorded, totals.unpriced, totals.priced == expected));
  }

  /** The period does not end before it begins. */
  lemma PeriodForward(dateOf: int -> int, first: int, last: int, from: int, to: int)
    requires NeverBack(dateOf) || SkipsNoDay(dateOf)
    requires first <= last && BeginsAt(dateOf, first, from) && BeginsAt(dateOf, last + 1, to)
    ensures from < to
  {
    assert dateOf(from) != dateOf(to);
    if NeverBack(dateOf) {
      assert to <= from ==> dateOf(to) <= dateOf(from);
    } else {
      assert from != first * DAY - 2160;
      assert to <= from - 1 ==> dateOf(to) <= dateOf(from - 1) + 1;
    }
  }

  function ReportOf(price: int -> real, from: int, to: int, xs: seq<Interval>): Report {
    var t := TotalsOf(price, from, to, xs);
    Report(if t.priced != 0 then Some(t.cost) else None, t.kwh, t.priced, t.recorded, to - from,
           to - from - t.recorded, t.unpriced, t.priced == to - from)
  }

  method AddInterval(price: int -> real, from: int, to: int, x: Interval, t0: Totals) returns (t: Totals)
    requires x.start < x.end
    ensures t == Add(price, from, to, t0, x)
  {
    t := t0;
    if x.end <= from || x.start >= to {
      return;
    }
    t := t.(recorded := t.recorded + (if x.end < to then x.end else to) - (if x.start > from then x.start else from));
    if x.start < from || x.end > to {
      t := t.(unpriced := t.unpriced + 1);
      return;
    }
    var rate := PriceAt(price, x);
    if rate.Some? {
      t := t.(cost := t.cost + x.kwh * rate.value, kwh := t.kwh + x.kwh, priced := t.priced + (x.end - x.start));
    } else {
      t := t.(unpriced := t.unpriced + 1);
    }
  }

  method SumIntervals(price: int -> real, from: int, to: int, xs: seq<Interval>) returns (t: Totals)
    requires Normal(xs)
    ensures t == TotalsOf(price, from, to, xs)
  {
    t := ZERO;
    for i := 0 to |xs|
      invariant t == TotalsOf(price, from, to, xs[..i])
    {
      assert xs[..i + 1][..i] == xs[..i];
      t := AddInterval(price, from, to, xs[i], t);
    }
    assert xs[..|xs|] == xs;
  }

  // ----- what the totals mean

  /** The part of the period that intervals cover without being priced. */
  function UnpricedLength(price: int -> real, from: int, to: int, xs: seq<Interval>): int {
    if xs == [] then 0
    else
      UnpricedLength(price, from, to, xs[..|xs| - 1])
      + (if TreatmentOf(price, from, to, xs[|xs| - 1]) in {Cut, Mixed} then Length(from, to, xs[|xs| - 1]) else 0)
  }

  lemma {:induction false} Conserved(price: int -> real, from: int, to: int, xs: seq<Interval>)
    requires from < to && Normal(xs)
    ensures var t := TotalsOf(price, from, to, xs);
      && t.priced + UnpricedLength(price, from, to, xs) == t.recorded
      && UnpricedLength(price, from, to, xs) >= t.unpriced
      && (t.unpriced == 0 ==> UnpricedLength(price, from, to, xs) == 0)
      && t.priced >= 0
  {
    if xs != [] {
      Conserved(price, from, to, xs[..|xs| - 1]);
    }
  }

  /** How far into the period the intervals reach. */
  function Reach(from: int, to: int, xs: seq<Interval>): int {
    if xs == [] then from else Clip(from, to, xs[|xs| - 1].end)
  }

  lemma {:induction false} RecordedWithin(price: int -> real, from: int, to: int, xs: seq<Interval>)
    requires from < to && Normal(xs)
    ensures TotalsOf(price, from, to, xs).recorded <= Reach(from, to, xs) - from <= to - from
  {
    if xs != [] {
      RecordedWithin(price, from, to, xs[..|xs| - 1]);
    }
  }

  /** Priced minutes are recorded and recorded minutes expected; a complete report lacks and refuses nothing, and only such a report is complete. */
  lemma {:induction false} ReportAddsUp(price: int -> real, from: int, to: int, xs: seq<Interval>)
    requires from < to && Normal(xs)
    ensures var r := ReportOf(price, from, to, xs);
      && 0 <= r.priced <= r.recorded <= r.expected && r.missing >= 0
      && r.priced + UnpricedLength(price, from, to, xs) == r.recorded
      && (r.complete <==> r.missing == 0 && r.unpriced == 0)
  {
    Conserved(price, from, to, xs);
    RecordedWithin(price, from, to, xs);
  }

  /** Some priced interval contains this minute. */
  predicate Covered(price: int -> real, from: int, to: int, xs: seq<Interval>, m: int) {
    exists i :: 0 <= i < |xs| && TreatmentOf(price, from, to, xs[i]) == Priced && xs[i].start <= m < xs[i].end
  }

  /** What the intervals before the last one cover lies before what it may cover. */
  lemma LastInterval(price: int -> real, from: int, to: int, xs: seq<Interval>)
    requires from < to && Normal(xs) && xs != []
    ensures var n := |xs| - 1;
      && Normal(xs[..n]) && Reach(from, to, xs[..n]) <= Clip(from, to, xs[n].start)
      && (forall m :: Covered(price, from, to, xs[..n], m) ==> from <= m < Reach(from, to, xs[..n]))
      && (forall m :: Covered(price, from, to, xs, m) <==>
            Covered(price, from, to, xs[..n], m) || (TreatmentOf(price, from, to, xs[n]) == Priced && xs[n].start <= m < xs[n].end))
  {
    var n := |xs| - 1;
    forall m ensures Covered(price, from, to, xs, m) <==>
      Covered(price, from, to, xs[..n], m) || (TreatmentOf(price, from, to, xs[n]) == Priced && xs[n].start <= m < xs[n].end)
    {
      if Covered(price, from, to, xs[..n], m) {
        var i :| 0 <= i < n && TreatmentOf(price, from, to, xs[..n][i]) == Priced && xs[..n][i].start <= m < xs[..n][i].end;
        assert xs[i] == xs[..n][i];
      }
      if Covered(price, from, to, xs, m) {
        var i :| 0 <= i < |xs| && TreatmentOf(price, from, to, xs[i]) == Priced && xs[i].start <= m < xs[i].end;
        assert i < n ==> xs[..n][i] == xs[i];
      }
    }
  }

  lemma {:induction false} PricedReach(price: int -> real, from: int, to: int, xs: seq<Interval>)
    requires from < to && Normal(xs)
    ensures TotalsOf(price, from, to, xs).priced <= Reach(from, to, xs) - from
    ensures TotalsOf(price, from, to, xs).priced == Reach(from, to, xs) - from <==>
      forall m :: from <= m < Reach(from, to, xs) ==> Covered(price, from, to, xs, m)
  {
    if xs != [] {
      var n := |xs| - 1;
      var gap := Reach(from, to, xs[..n]);
      PricedReach(price, from, to, xs[..n]);
      LastInterval(price, from, to, xs);
      assert !Covered(price, from, to, xs[..n], gap);
      assert TotalsOf(price, from, to, xs).priced == TotalsOf(price, from, to, xs[..n]).priced
        + if TreatmentOf(price, from, to, xs[n]) == Priced then xs[n].end - xs[n].start else 0;
    }
  }

  /** A report is complete exactly when every minute of the period lies in a priced interval. */
  lemma CompleteMeansCovered(price: int -> real, from: int, to: int, xs: seq<Interval>)
    requires from < to && Normal(xs)
    ensures ReportOf(price, from, to, xs).complete <==> forall m :: from <= m < to ==> Covered(price, from, to, xs, m)
  {
    PricedReach(price, from, to, xs);
    if Covered(price, from, to, xs, to - 1) {
      LastInterval(price, from, to, xs);
    }
  }

  // ----- what the cost means

  /** The sum of the prices of all minutes from `start` to `end`. */
  function PriceSum(price: int -> real, start: int, end: int): real
    decreases end - start
  {
    if start >= end then 0.0 else PriceSum(price, start, end - 1) + price(end - 1)
  }

  /** What an interval costs minute by minute, its energy spread evenly. */
  function MinuteCost(price: int -> real, x: Interval): real
    requires x.start < x.end
  {
    x.kwh / (x.end - x.start) as real * PriceSum(price, x.start, x.end)
  }

  lemma {:induction false} UniformSum(price: int -> real, rate: real, start: int, end: int)
    requires start <= end && forall m :: start <= m < end ==> price(m) == rate
    ensures PriceSum(price, start, end) == rate * (end - start) as real
    decreases end - start
  {
    if start < end {
      UniformSum(price, rate, start, end - 1);
    }
  }

  function CostByMinute(price: int -> real, from: int, to: int, xs: seq<Interval>): real
    requires Positive(xs)
  {
    if xs == [] then 0.0
    else
      CostByMinute(price, from, to, xs[..|xs| - 1])
      + (if TreatmentOf(price, from, to, xs[|xs| - 1]) == Priced then MinuteCost(price, xs[|xs| - 1]) else 0.0)
  }

  /** The cost is what the priced intervals cost minute by minute. */
  lemma {:induction false} CostIsByMinute(price: int -> real, from: int, to: int, xs: seq<Interval>)
    requires Positive(xs)
    ensures TotalsOf(price, from, to, xs).cost == CostByMinute(price, from, to, xs)
  {
    if xs != [] {
      var x := xs[|xs| - 1];
      CostIsByMinute(price, from, to, xs[..|xs| - 1]);
      if Uniform(price, x) {
        UniformSum(price, price(x.start), x.start, x.end);
        Spread(x.kwh, price(x.start), (x.end - x.start) as real);
      }
    }
  }

  lemma Spread(kwh: real, rate: real, length: real)
    requires length > 0.0
    ensures kwh / length * (rate * length) == kwh * rate
  {
    assert kwh / length * (rate * length) == (kwh / length * length) * rate;
  }
}
