/**
 What the totals of a period count, minute by minute: the minutes of the period that some interval recorded, and
 those of an interval that lies within the period and in which the price does not change.
 */
module IntervalTotals {
  import opened Basics
  import opened IntervalPricing

  // ----- which files are accepted

  predicate IsMeasured(r: Row) {
    && r.start.Some? && r.end.Some? && r.kwh.Some?
    && 1 <= r.end.value - r.start.value <= 60 && r.kwh.value >= 0.0
  }

  predicate AreMeasured(rows: seq<Row>) { forall i :: 0 <= i < |rows| ==> IsMeasured(rows[i]) }

  predicate RowHas(r: Row, m: int) { r.start.Some? && r.end.Some? && r.start.value <= m < r.end.value }

  /** No minute belongs to two rows. */
  ghost predicate NoMinuteTwice(rows: seq<Row>) {
    forall i, j :: 0 <= i < j < |rows| ==> forall m :: !(RowHas(rows[i], m) && RowHas(rows[j], m))
  }

  /** The file spans 366 days at most, from any row's start to any row's end. */
  predicate InOneYear(rows: seq<Row>)
    requires AreMeasured(rows)
  {
    forall i, j :: 0 <= i < |rows| && 0 <= j < |rows| ==> rows[j].end.value - rows[i].start.value <= 527_040
  }

  lemma MeasuredRows(rows: seq<Row>)
    ensures AreMeasured(rows) <==> forall r :: r in rows ==> ValidRow(r)
  {
    if AreMeasured(rows) {
      forall r | r in rows ensures ValidRow(r) {
        var i :| 0 <= i < |rows| && rows[i] == r;
        assert IsMeasured(rows[i]);
      }
    }
    assert forall i :: 0 <= i < |rows| ==> rows[i] in rows;
  }

  lemma ApartRows(rows: seq<Row>)
    requires AreMeasured(rows) && forall r :: r in rows ==> ValidRow(r)
    ensures AllApart(Intervals(rows)) <==> NoMinuteTwice(rows)
  {
    var xs := Intervals(rows);
    ApartByIndex(xs);
    forall i, j | 0 <= i < j < |rows|
      ensures Apart(xs[i], xs[j]) <==> forall m :: !(RowHas(rows[i], m) && RowHas(rows[j], m))
    {
      assert IsMeasured(rows[i]) && IsMeasured(rows[j]);
      ApartRow(rows[i], rows[j]);
    }
  }

  lemma ApartRow(r: Row, q: Row)
    requires IsMeasured(r) && IsMeasured(q)
    ensures Apart(IntervalOf(r), IntervalOf(q)) <==> forall m :: !(RowHas(r, m) && RowHas(q, m))
  {
    var m := if r.start.value <= q.start.value then q.start.value else r.start.value;
    assert RowHas(r, m) && RowHas(q, m) <==> !Apart(IntervalOf(r), IntervalOf(q));
  }

  lemma SpanOfRows(rows: seq<Row>)
    requires AreMeasured(rows) && forall r :: r in rows ==> ValidRow(r)
    ensures WithinSpan(Intervals(rows)) <==> InOneYear(rows)
  {
    var xs := Intervals(rows);
    if WithinSpan(xs) {
      forall i, j | 0 <= i < |rows| && 0 <= j < |rows| ensures rows[j].end.value - rows[i].start.value <= 527_040 {
        assert xs[i] in xs && xs[j] in xs;
      }
    }
    if InOneYear(rows) {
      forall x, y | x in xs && y in xs ensures y.end - x.start <= MAX_DAYS * DAY {
        var i :| 0 <= i < |xs| && xs[i] == x;
        var j :| 0 <= j < |xs| && xs[j] == y;
        assert rows[j].end.value - rows[i].start.value <= 527_040;
      }
    }
  }

  /** A file is accepted exactly when its rows are measured, 1 to 20,000, no minute belongs to two, and a leap year holds them. */
  lemma AcceptableExactly(rows: seq<Row>)
    ensures Acceptable(rows) <==> 1 <= |rows| <= 20_000 && AreMeasured(rows) && NoMinuteTwice(rows) && InOneYear(rows)
  {
    hide AllApart, WithinSpan, NoMinuteTwice, InOneYear, ValidRow, AreMeasured;
    MeasuredRows(rows);
    if AreMeasured(rows) {
      ApartRows(rows);
      SpanOfRows(rows);
    }
  }

  // ----- what the totals count

  predicate Contains(x: Interval, m: int) { x.start <= m < x.end }

  /** The interval lies within the period, and all its minutes have one price. */
  ghost predicate HasOnePrice(price: int -> real, from: int, to: int, x: Interval) {
    from <= x.start && x.end <= to && forall m, n :: Contains(x, m) && Contains(x, n) ==> price(m) == price(n)
  }

  predicate ReachesInto(from: int, to: int, x: Interval) { x.start < to && from < x.end }

  ghost predicate IsRecorded(xs: seq<Interval>, m: int) { exists i :: 0 <= i < |xs| && Contains(xs[i], m) }

  ghost predicate HasItsPrice(price: int -> real, from: int, to: int, xs: seq<Interval>, m: int) {
    exists i :: 0 <= i < |xs| && Contains(xs[i], m) && HasOnePrice(price, from, to, xs[i])
  }

  ghost function RecordedMinutes(from: int, to: int, xs: seq<Interval>): set<int> {
    set m | from <= m < to && IsRecorded(xs, m)
  }

  ghost function PricedMinutes(price: int -> real, from: int, to: int, xs: seq<Interval>): set<int> {
    set m | from <= m < to && HasItsPrice(price, from, to, xs, m)
  }

  ghost function UnpricedIntervals(price: int -> real, from: int, to: int, xs: seq<Interval>): set<int> {
    set i | 0 <= i < |xs| && ReachesInto(from, to, xs[i]) && !HasOnePrice(price, from, to, xs[i])
  }

  /** The energy of the intervals with one price. */
  ghost function PricedEnergy(price: int -> real, from: int, to: int, xs: seq<Interval>): real {
    if xs == [] then 0.0
    else PricedEnergy(price, from, to, xs[1..]) + if HasOnePrice(price, from, to, xs[0]) then xs[0].kwh else 0.0
  }

  predicate Within(from: int, to: int, m: int) { from <= m < to }

  ghost function Range(from: int, to: int): set<int> { set m | from <= m < to && Within(from, to, m) }

  lemma {:induction false} RangeSize(from: int, to: int)
    decreases to - from
    ensures |Range(from, to)| == if from < to then to - from else 0
  {
    if from < to {
      RangeSize(from, to - 1);
      assert Range(from, to) == Range(from, to - 1) + {to - 1};
    }
  }

  lemma OnePriceIsPriced(price: int -> real, from: int, to: int, x: Interval)
    requires from < to && x.start < x.end
    ensures TreatmentOf(price, from, to, x) == Priced <==> HasOnePrice(price, from, to, x)
    ensures TreatmentOf(price, from, to, x) == Outside <==> !ReachesInto(from, to, x)
  {
    assert Contains(x, x.start);
    if HasOnePrice(price, from, to, x) {
      forall m | x.start <= m < x.end ensures price(m) == price(x.start) {
        assert Contains(x, m);
      }
    }
  }

  /** The minutes of the last interval come after all others. */
  lemma LastMinutes(price: int -> real, from: int, to: int, xs: seq<Interval>)
    requires from < to && Normal(xs) && xs != []
    ensures var n, x := |xs| - 1, xs[|xs| - 1];
      && Normal(xs[..n])
      && |RecordedMinutes(from, to, xs)| ==
           |RecordedMinutes(from, to, xs[..n])| + (if ReachesInto(from, to, x) then Length(from, to, x) else 0)
      && |PricedMinutes(price, from, to, xs)| ==
           |PricedMinutes(price, from, to, xs[..n])| + (if HasOnePrice(price, from, to, x) then x.end - x.start else 0)
      && |UnpricedIntervals(price, from, to, xs)| == |UnpricedIntervals(price, from, to, xs[..n])|
           + (if ReachesInto(from, to, x) && !HasOnePrice(price, from, to, x) then 1 else 0)
  {
    hide HasOnePrice, PricedMinutes, UnpricedIntervals, RecordedMinutes;
    LastRecorded(from, to, xs);
    LastPriced(price, from, to, xs);
    LastUnpriced(price, from, to, xs);
  }

  /** A minute is in the last interval or before it. */
  lemma MinuteOf(price: int -> real, from: int, to: int, xs: seq<Interval>, m: int)
    requires Normal(xs) && xs != []
    ensures var n := |xs| - 1;
      && (IsRecorded(xs, m) <==> IsRecorded(xs[..n], m) || Contains(xs[n], m))
      && (IsRecorded(xs[..n], m) ==> m < xs[n].start)
      && (HasItsPrice(price, from, to, xs, m) <==>
            HasItsPrice(price, from, to, xs[..n], m) || (Contains(xs[n], m) && HasOnePrice(price, from, to, xs[n])))
      && (HasItsPrice(price, from, to, xs[..n], m) ==> m < xs[n].start)
  {
    hide HasOnePrice;
    var n := |xs| - 1;
    assert forall i :: 0 <= i < n ==> xs[..n][i] == xs[i] && xs[i].end <= xs[n].start;
    assert forall i :: 0 <= i <= n ==> i == n || xs[..n][i] == xs[i];
  }

  lemma LastRecorded(from: int, to: int, xs: seq<Interval>)
    requires from < to && Normal(xs) && xs != []
    ensures var n, x := |xs| - 1, xs[|xs| - 1];
      |RecordedMinutes(from, to, xs)| ==
        |RecordedMinutes(from, to, xs[..n])| + (if ReachesInto(from, to, x) then Length(from, to, x) else 0)
  {
    hide IsRecorded, Normal;
    var n, x := |xs| - 1, xs[|xs| - 1];
    var low, high := if x.start > from then x.start else from, if x.end < to then x.end else to;
    var before, own := RecordedMinutes(from, to, xs[..n]), Range(low, high);
    RangeSize(low, high);
    NormalPositive(xs, n);
    forall m ensures IsRecorded(xs, m) <==> IsRecorded(xs[..n], m) || Contains(x, m)
             ensures IsRecorded(xs[..n], m) ==> m < x.start
    {
      MinuteOf(_ => 0.0, from, to, xs, m);
    }
    assert RecordedMinutes(from, to, xs) == before + own;
    assert before !! own;
  }

  lemma LastPriced(price: int -> real, from: int, to: int, xs: seq<Interval>)
    requires from < to && Normal(xs) && xs != []
    ensures var n, x := |xs| - 1, xs[|xs| - 1];
      |PricedMinutes(price, from, to, xs)| ==
        |PricedMinutes(price, from, to, xs[..n])| + (if HasOnePrice(price, from, to, x) then x.end - x.start else 0)
  {
    hide HasItsPrice, HasOnePrice;
    var n, x := |xs| - 1, xs[|xs| - 1];
    var before, own := PricedMinutes(price, from, to, xs[..n]), if HasOnePrice(price, from, to, x) then Range(x.start, x.end) else {};
    RangeSize(x.start, x.end);
    OnePriceInside(price, from, to, x);
    forall m
      ensures HasItsPrice(price, from, to, xs, m) <==>
        HasItsPrice(price, from, to, xs[..n], m) || (Contains(x, m) && HasOnePrice(price, from, to, x))
      ensures HasItsPrice(price, from, to, xs[..n], m) ==> m < x.start
    {
      MinuteOf(price, from, to, xs, m);
    }
    hide Normal;
    assert PricedMinutes(price, from, to, xs) == before + own;
    assert before !! own;
  }

  lemma OnePriceInside(price: int -> real, from: int, to: int, x: Interval)
    ensures HasOnePrice(price, from, to, x) ==> from <= x.start && x.end <= to
  {
  }

  lemma LastUnpriced(price: int -> real, from: int, to: int, xs: seq<Interval>)
    requires xs != []
    ensures var n, x := |xs| - 1, xs[|xs| - 1];
      |UnpricedIntervals(price, from, to, xs)| == |UnpricedIntervals(price, from, to, xs[..n])|
        + (if ReachesInto(from, to, x) && !HasOnePrice(price, from, to, x) then 1 else 0)
  {
    hide HasOnePrice, ReachesInto;
    var n, x := |xs| - 1, xs[|xs| - 1];
    var before := UnpricedIntervals(price, from, to, xs[..n]);
    if ReachesInto(from, to, x) && !HasOnePrice(price, from, to, x) {
      assert UnpricedIntervals(price, from, to, xs) == before + {n};
    } else {
      assert UnpricedIntervals(price, from, to, xs) == before;
    }
  }

  lemma {:induction false} EnergyOfLast(price: int -> real, from: int, to: int, xs: seq<Interval>)
    requires xs != []
    ensures var n := |xs| - 1;
      PricedEnergy(price, from, to, xs) ==
        PricedEnergy(price, from, to, xs[..n]) + if HasOnePrice(price, from, to, xs[n]) then xs[n].kwh else 0.0
  {
    hide HasOnePrice;
    var n := |xs| - 1;
    if n > 0 {
      EnergyOfLast(price, from, to, xs[1..]);
      assert xs[1..][..n - 1] == xs[..n][1..];
    }
  }

  /** The totals count minutes, intervals and energy of the period, each once. */
  lemma {:induction false} TotalsExactly(price: int -> real, from: int, to: int, xs: seq<Interval>)
    requires from < to && Normal(xs)
    ensures var t := TotalsOf(price, from, to, xs);
      && t.recorded == |RecordedMinutes(from, to, xs)| && t.priced == |PricedMinutes(price, from, to, xs)|
      && t.unpriced == |UnpricedIntervals(price, from, to, xs)| && t.kwh == PricedEnergy(price, from, to, xs)
  {
    hide HasOnePrice, ReachesInto, TreatmentOf, Normal;
    if xs == [] {
      assert RecordedMinutes(from, to, xs) == {} && PricedMinutes(price, from, to, xs) == {};
      assert UnpricedIntervals(price, from, to, xs) == {};
    } else {
      var n := |xs| - 1;
      LastMinutes(price, from, to, xs);
      EnergyOfLast(price, from, to, xs);
      NormalPositive(xs, n);
      OnePriceIsPriced(price, from, to, xs[n]);
      OnePriceReaches(price, from, to, xs[n]);
      TotalsExactly(price, from, to, xs[..n]);
    }
  }

  lemma NormalPositive(xs: seq<Interval>, n: nat)
    requires Normal(xs) && n < |xs|
    ensures xs[n].start < xs[n].end
  {
  }

  lemma OnePriceReaches(price: int -> real, from: int, to: int, x: Interval)
    requires x.start < x.end
    ensures HasOnePrice(price, from, to, x) ==> ReachesInto(from, to, x) && Length(from, to, x) == x.end - x.start
  {
  }

  /** The report in terms of minutes: how many the period has, how many of them no interval records, and how many are priced. */
  lemma {:induction false} ReportExactly(price: int -> real, from: int, to: int, xs: seq<Interval>)
    requires from < to && Normal(xs)
    ensures var r := ReportOf(price, from, to, xs);
      && r.expected == |Range(from, to)| && r.missing == |Range(from, to) - RecordedMinutes(from, to, xs)|
      && r.recorded == |RecordedMinutes(from, to, xs)| && r.priced == |PricedMinutes(price, from, to, xs)|
      && r.unpriced == |UnpricedIntervals(price, from, to, xs)| && r.kwh == PricedEnergy(price, from, to, xs)
      && (r.cost.Some? <==> PricedMinutes(price, from, to, xs) != {})
      && (r.complete <==> PricedMinutes(price, from, to, xs) == Range(from, to))
  {
    hide HasOnePrice, Normal, TotalsOf;
    TotalsExactly(price, from, to, xs);
    RangeSize(from, to);
    var all, recorded, priced := Range(from, to), RecordedMinutes(from, to, xs), PricedMinutes(price, from, to, xs);
    assert recorded <= all && priced <= all;
    SizeOfRest(all, recorded);
    SizeOfRest(all, priced);
  }

  lemma SizeOfRest(all: set<int>, some: set<int>)
    requires some <= all
    ensures |all - some| == |all| - |some| && (|some| == |all| <==> some == all)
  {
    assert (all - some) + some == all;
    assert all - some == {} <==> some == all;
  }
}
