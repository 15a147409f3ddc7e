/**
 Backtick runs of a line and the inline code they delimit: one reverse pass over the runs finds what a
 naive forward search from each run would find, the nearest later run of the same length.
 */
module CodeSpans {
  import opened Basics

  predicate RunStart(line: string, p: int) {
    0 <= p < |line| && line[p] == '`' && (p > 0 ==> line[p - 1] != '`')
  }

  /** The end of the backticks that begin at `p`. */
  function RunEnd(line: string, p: nat): (end: nat)
    requires p <= |line|
    ensures p <= end <= |line|
    ensures forall q :: p <= q < end ==> line[q] == '`'
    ensures end < |line| ==> line[end] != '`'
    decreases |line| - p
  {
    if p < |line| && line[p] == '`' then RunEnd(line, p + 1) else p
  }

  /** Naive search: the end of the first run at or after `from` that has this length. */
  function NextEqual(line: string, from: nat, length: nat): Option<nat>
    decreases |line| - from
  {
    if from >= |line| then None
    else if RunStart(line, from) && RunEnd(line, from) == from + length then Some(from + length)
    else NextEqual(line, from + 1, length)
  }

  /** Where the code span that begins at `p` ends, if one does. */
  function CodeEnd(line: string, p: nat): (end: Option<nat>)
  {
    if RunStart(line, p) then NextEqual(line, RunEnd(line, p), RunEnd(line, p) - p) else None
  }

  /** A run from `p` to `end`: backticks only, and none on either side. */
  predicate IsRun(line: string, p: int, end: int) {
    && 0 <= p < end <= |line|
    && (forall q :: p <= q < end ==> line[q] == '`')
    && (p > 0 ==> line[p - 1] != '`') && (end < |line| ==> line[end] != '`')
  }

  predicate HasRun(line: string, p: int, length: nat) { IsRun(line, p, p + length) }

  lemma {:induction false} RunOf(line: string, p: nat, end: nat)
    requires p <= |line|
    ensures RunStart(line, p) && end == RunEnd(line, p) <==> IsRun(line, p, end)
  {
    if IsRun(line, p, end) {
      assert RunEnd(line, p) > p;
    }
  }

  lemma {:induction false} NextEqualIsNearest(line: string, from: nat, length: nat)
    requires length > 0
    ensures match NextEqual(line, from, length)
      case Some(end) =>
        && from + length <= end <= |line| && HasRun(line, end - length, length)
        && forall p :: from <= p < end - length ==> !HasRun(line, p, length)
      case None => forall p :: from <= p ==> !HasRun(line, p, length)
    decreases |line| - from
  {
    if from < |line| {
      RunOf(line, from, from + length);
      if !(RunStart(line, from) && RunEnd(line, from) == from + length) {
        NextEqualIsNearest(line, from + 1, length);
      }
    }
  }

  /** A code span goes from one run to the nearest later run of equal length, and there is one exactly when such a run exists. */
  lemma CodeEndIsNearest(line: string, p: nat, length: nat)
    requires HasRun(line, p, length)
    ensures CodeEnd(line, p).Some? <==> exists q :: p + length <= q && HasRun(line, q, length)
    ensures CodeEnd(line, p).Some? ==>
      var end := CodeEnd(line, p).value;
      && p + 2 * length < end <= |line| && HasRun(line, end - length, length)
      && forall q :: p + length <= q < end - length ==> !HasRun(line, q, length)
  {
    RunOf(line, p, p + length);
    NextEqualIsNearest(line, p + length, length);
  }

  lemma {:induction false} SkipGap(line: string, from: nat, to: nat, length: nat)
    requires from <= to <= |line| && forall p :: from <= p < to ==> !RunStart(line, p)
    ensures NextEqual(line, from, length) == NextEqual(line, to, length)
    decreases |line| - from
  {
    if from < to {
      SkipGap(line, from + 1, to, length);
    }
  }

  /** The runs of a line, in order and without gaps. */
  ghost predicate AllRuns(line: string, upTo: nat, runs: seq<(nat, nat)>) {
    && (forall i :: 0 <= i < |runs| ==> IsRun(line, runs[i].0, runs[i].1) && runs[i].0 < upTo)
    && (forall i, j :: 0 <= i < j < |runs| ==> runs[i].1 < runs[j].0)
    && (forall p :: RunStart(line, p) && p < upTo ==> exists i :: 0 <= i < |runs| && runs[i].0 == p)
  }

  method FindRuns(line: string) returns (runs: seq<(nat, nat)>)
    ensures AllRuns(line, |line|, runs)
  {
    runs := [];
    var i := 0;
    while i < |line|
      invariant 0 <= i <= |line| && AllRuns(line, i, runs)
      invariant i == 0 || i == |line| || line[i] != '`' || line[i - 1] != '`'
      invariant forall k :: 0 <= k < |runs| ==> runs[k].1 <= i
    {
      if line[i] == '`' {
        var end := RunEnd(line, i);
        RunOf(line, i, end);
        ghost var before := runs;
        forall k | 0 <= k < |runs| ensures runs[k].1 < i {
          assert IsRun(line, runs[k].0, runs[k].1);
        }
        runs := runs + [(i, end)];
        NextRuns(line, i, end, before);
        i := end;
      } else {
        i := i + 1;
      }
    }
  }

  lemma NextRuns(line: string, i: nat, end: nat, before: seq<(nat, nat)>)
    requires AllRuns(line, i, before) && IsRun(line, i, end) && forall k :: 0 <= k < |before| ==> before[k].1 < i
    ensures AllRuns(line, end, before + [(i, end)])
  {
    var runs := before + [(i, end)];
    forall p | RunStart(line, p) && p < end ensures exists k :: 0 <= k < |runs| && runs[k].0 == p {
      if p < i {
        var k :| 0 <= k < |before| && before[k].0 == p;
        assert runs[k].0 == p;
      } else {
        assert p == i;
        assert runs[|before|].0 == p;
      }
    }
  }

  /** Where run `i` begins; past the last one, the end of the line. */
  function Begins(line: string, runs: seq<(nat, nat)>, i: nat): nat {
    if i < |runs| then runs[i].0 else |line|
  }

  lemma NoRunBetween(line: string, runs: seq<(nat, nat)>, i: nat, p: nat)
    requires AllRuns(line, |line|, runs) && i < |runs| && runs[i].0 < p < Begins(line, runs, i + 1)
    ensures !RunStart(line, p)
  {
    RunsOrdered(line, runs);
  }

  lemma RunsOrdered(line: string, runs: seq<(nat, nat)>)
    requires AllRuns(line, |line|, runs)
    ensures forall i, j :: 0 <= i < j < |runs| ==> runs[i].0 < runs[j].0
  {
    forall i, j | 0 <= i < j < |runs| ensures runs[i].0 < runs[j].0 {
      assert IsRun(line, runs[i].0, runs[i].1);
    }
  }

  /** What a search from run `i` gives, from what one from the run after it gives. */
  lemma {:induction false} SearchFromRun(line: string, runs: seq<(nat, nat)>, i: nat, length: nat)
    requires AllRuns(line, |line|, runs) && i < |runs|
    ensures NextEqual(line, runs[i].0, length) ==
      if runs[i].1 - runs[i].0 == length then Some(runs[i].1) else NextEqual(line, Begins(line, runs, i + 1), length)
    ensures CodeEnd(line, runs[i].0) == NextEqual(line, Begins(line, runs, i + 1), runs[i].1 - runs[i].0)
  {
    var (start, end) := runs[i];
    var next := Begins(line, runs, i + 1);
    assert IsRun(line, start, end);
    RunOf(line, start, end);
    assert end <= next;
    forall p | start < p < next ensures !RunStart(line, p) {
      NoRunBetween(line, runs, i, p);
    }
    SkipGap(line, start + 1, next, length);
    SkipGap(line, end, next, end - start);
  }

  /** `following` answers every search that begins at `from`. */
  ghost predicate Answers(line: string, from: nat, following: map<nat, nat>) {
    forall length: nat :: NextEqual(line, from, length) == if length in following then Some(following[length]) else None
  }

  /** `ends` holds exactly the code spans that begin at or after `from`. */
  ghost predicate SpansFrom(line: string, from: nat, ends: map<nat, nat>) {
    forall p: nat :: if p in ends then from <= p && CodeEnd(line, p) == Some(ends[p]) else p < from || CodeEnd(line, p).None?
  }

  lemma PreviousRun(line: string, runs: seq<(nat, nat)>, i: nat, following: map<nat, nat>)
    requires AllRuns(line, |line|, runs) && i < |runs| && Answers(line, Begins(line, runs, i + 1), following)
    ensures var (start, end) := runs[i]; start < end && Answers(line, start, following[end - start := end])
  {
    var (start, end) := runs[i];
    assert IsRun(line, start, end);
    forall length: nat
      ensures NextEqual(line, start, length) == if length == end - start then Some(end) else NextEqual(line, Begins(line, runs, i + 1), length)
    {
      SearchFromRun(line, runs, i, length);
    }
  }

  lemma PreviousSpan(line: string, runs: seq<(nat, nat)>, i: nat, following: map<nat, nat>, ends: map<nat, nat>)
    requires AllRuns(line, |line|, runs) && i < |runs|
    requires Answers(line, Begins(line, runs, i + 1), following) && SpansFrom(line, Begins(line, runs, i + 1), ends)
    ensures var (start, end) := runs[i];
      start < end && SpansFrom(line, start, if end - start in following then ends[start := following[end - start]] else ends)
  {
    var (start, end) := runs[i];
    assert IsRun(line, start, end);
    SearchFromRun(line, runs, i, end - start);
    forall p | start < p < Begins(line, runs, i + 1) ensures CodeEnd(line, p).None? {
      NoRunBetween(line, runs, i, p);
    }
  }

  lemma NothingBeforeFirst(line: string, runs: seq<(nat, nat)>, p: nat)
    requires AllRuns(line, |line|, runs) && p < Begins(line, runs, 0)
    ensures !RunStart(line, p)
  {
    RunsOrdered(line, runs);
  }

  /** The ends of all code spans of a line, by where they begin. */
  method CodeSpanEnds(line: string) returns (ends: map<nat, nat>)
    ensures SpansFrom(line, 0, ends)
  {
    var runs := FindRuns(line);
    var following: map<nat, nat> := map[];
    ends := map[];
    for i := |runs| downto 0
      invariant Answers(line, Begins(line, runs, i), following)
      invariant SpansFrom(line, Begins(line, runs, i), ends)
    {
      var (start, end) := runs[i];
      PreviousRun(line, runs, i, following);
      PreviousSpan(line, runs, i, following, ends);
      var length := end - start;
      if length in following {
        ends := ends[start := following[length]];
      }
      following := following[length := end];
    }
    forall p: nat | p < Begins(line, runs, 0) ensures CodeEnd(line, p).None? {
      NothingBeforeFirst(line, runs, p);
    }
  }
}
