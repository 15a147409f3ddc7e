/** Sections between headings: what lies after a heading of one level and before the next that is not deeper. */
module HeadingSections {
  datatype Heading = Heading(level: nat, title: string, start: nat, end: nat)

  datatype HeadingMark = NoHeading | Titled(level: nat, title: string)

  /** What the search for headings sees of a line. */
  datatype Mark = Mark(size: nat, heading: HeadingMark)

  datatype Section = Section(title: string, start: nat, end: nat)

  /** Headings lie one after the other inside the text. */
  ghost predicate InOrder(headings: seq<Heading>, from: nat, to: nat) {
    && (forall i :: 0 <= i < |headings| ==> from <= headings[i].start < headings[i].end <= to)
    && (forall i, j :: 0 <= i < j < |headings| ==> headings[i].end <= headings[j].start)
  }

  /** Ordered, disjoint slices of a text of this size. */
  ghost predicate Apart(sections: seq<Section>, size: nat) {
    && (forall i :: 0 <= i < |sections| ==> sections[i].start <= sections[i].end <= size)
    && (forall i, j :: 0 <= i < j < |sections| ==> sections[i].end <= sections[j].start)
  }

  /** It follows a heading of this level and runs to the first later heading that is not deeper. */
  ghost predicate IsSection(headings: seq<Heading>, level: nat, size: nat, s: Section) {
    exists h :: h in headings && h.level == level && s.title == h.title && s.start == h.end && EndsSection(headings, level, size, h, s.end)
  }

  ghost predicate EndsSection(headings: seq<Heading>, level: nat, size: nat, h: Heading, end: nat) {
    && (end == size || exists g :: g in headings && g.level <= level && h.end <= g.start == end)
    && forall g :: g in headings && g.level <= level && h.end <= g.start ==> end <= g.start
  }

  function UpTo(headings: seq<Heading>, level: nat): seq<Heading> {
    if headings == [] then []
    else (if headings[0].level <= level then [headings[0]] else []) + UpTo(headings[1..], level)
  }

  /** Where heading `i` begins; past the last one, where the text ends. */
  function StartOf(headings: seq<Heading>, i: nat, size: nat): nat {
    if i < |headings| then headings[i].start else size
  }

  function SectionAt(headings: seq<Heading>, i: nat, size: nat): Section
    requires i < |headings|
  {
    Section(headings[i].title, headings[i].end, StartOf(headings, i + 1, size))
  }

  /** The sections among the first `count` headings. */
  function Picked(headings: seq<Heading>, level: nat, size: nat, count: nat): seq<Section>
    requires count <= |headings|
  {
    if count == 0 then []
    else
      Picked(headings, level, size, count - 1)
      + (if headings[count - 1].level == level then [SectionAt(headings, count - 1, size)] else [])
  }

  function SectionsOf(headings: seq<Heading>, level: nat, size: nat): seq<Section> {
    Picked(UpTo(headings, level), level, size, |UpTo(headings, level)|)
  }

  method Sections(all: seq<Heading>, level: nat, size: nat) returns (sections: seq<Section>)
    ensures sections == SectionsOf(all, level, size)
  {
    var headings := UpTo(all, level);
    sections := [];
    for i := 0 to |headings|
      invariant sections == Picked(headings, level, size, i)
    {
      if headings[i].level == level {
        sections := sections + [SectionAt(headings, i, size)];
      }
    }
  }

  function HeadingsAt(mark: Mark, offset: nat): seq<Heading> {
    if mark.heading.NoHeading? then []
    else [Heading(mark.heading.level, mark.heading.title, offset, offset + mark.size)]
  }

  /** The headings from line `i` on, which begins at `offset`. */
  function HeadingsFrom(marks: seq<Mark>, i: nat, offset: nat): seq<Heading>
    requires i <= |marks|
    decreases |marks| - i
  {
    if i == |marks| then [] else HeadingsAt(marks[i], offset) + HeadingsFrom(marks, i + 1, offset + marks[i].size)
  }

  method Headings(marks: seq<Mark>) returns (headings: seq<Heading>)
    ensures headings == HeadingsFrom(marks, 0, 0)
  {
    headings := [];
    var offset: nat := 0;
    for i := 0 to |marks|
      invariant headings + HeadingsFrom(marks, i, offset) == HeadingsFrom(marks, 0, 0)
    {
      if marks[i].heading.Titled? {
        headings := headings + [Heading(marks[i].heading.level, marks[i].heading.title, offset, offset + marks[i].size)];
      }
      offset := offset + marks[i].size;
    }
  }

  /** How much text the lines from `i` on hold. */
  function SizeFrom(marks: seq<Mark>, i: nat): nat
    requires i <= |marks|
    decreases |marks| - i
  {
    if i == |marks| then 0 else marks[i].size + SizeFrom(marks, i + 1)
  }

  lemma {:induction false} HeadingsInOrder(marks: seq<Mark>, i: nat, offset: nat)
    requires i <= |marks| && forall k :: 0 <= k < |marks| && marks[k].heading.Titled? ==> marks[k].size > 0
    ensures InOrder(HeadingsFrom(marks, i, offset), offset, offset + SizeFrom(marks, i))
    decreases |marks| - i
  {
    if i < |marks| {
      HeadingsInOrder(marks, i + 1, offset + marks[i].size);
      FirstInOrder(HeadingsAt(marks[i], offset), HeadingsFrom(marks, i + 1, offset + marks[i].size),
        offset, offset + marks[i].size, offset + SizeFrom(marks, i));
    }
  }

  /** At most one heading, then those of the rest of the text. */
  lemma FirstInOrder(first: seq<Heading>, rest: seq<Heading>, from: nat, middle: nat, to: nat)
    requires |first| <= 1 && InOrder(first, from, middle) && from <= middle && InOrder(rest, middle, to) && middle <= to
    ensures InOrder(first + rest, from, to)
  {
  }

  lemma {:induction false} UpToMembers(headings: seq<Heading>, level: nat, h: Heading)
    ensures h in UpTo(headings, level) <==> h in headings && h.level <= level
  {
    if headings != [] {
      UpToMembers(headings[1..], level, h);
      assert headings == [headings[0]] + headings[1..];
    }
  }

  lemma {:induction false} UpToInOrder(headings: seq<Heading>, level: nat, from: nat, to: nat)
    requires InOrder(headings, from, to)
    ensures InOrder(UpTo(headings, level), from, to)
  {
    if headings != [] {
      var first := if headings[0].level <= level then [headings[0]] else [];
      assert InOrder(headings[1..], headings[0].end, to);
      UpToInOrder(headings[1..], level, headings[0].end, to);
      FirstInOrder(first, UpTo(headings[1..], level), from, headings[0].end, to);
    }
  }

  lemma {:induction false} PickedApart(headings: seq<Heading>, level: nat, size: nat, count: nat)
    requires InOrder(headings, 0, size) && count <= |headings|
    ensures Apart(Picked(headings, level, size, count), StartOf(headings, count, size))
  {
    if count > 0 {
      var before := Picked(headings, level, size, count - 1);
      PickedApart(headings, level, size, count - 1);
      assert headings[count - 1].end <= StartOf(headings, count, size);
      assert Apart(before, StartOf(headings, count, size));
    }
  }

  lemma {:induction false} PickedMembers(headings: seq<Heading>, level: nat, size: nat, count: nat, s: Section)
    requires count <= |headings|
    ensures s in Picked(headings, level, size, count) <==>
      exists k :: 0 <= k < count && headings[k].level == level && s == SectionAt(headings, k, size)
  {
    if count > 0 {
      PickedMembers(headings, level, size, count - 1, s);
      var last := if headings[count - 1].level == level then [SectionAt(headings, count - 1, size)] else [];
      assert Picked(headings, level, size, count) == Picked(headings, level, size, count - 1) + last;
    }
  }

  lemma LaterHeadings(headings: seq<Heading>, to: nat, i: nat, j: nat)
    requires InOrder(headings, 0, to) && i < |headings| && j < |headings|
    ensures headings[i].end <= headings[j].start <==> i < j
    ensures i < j ==> headings[i + 1].start <= headings[j].start
  {
  }

  lemma {:induction false} NextEnds(all: seq<Heading>, level: nat, size: nat, k: nat, end: nat)
    requires InOrder(UpTo(all, level), 0, size) && k < |UpTo(all, level)|
    ensures EndsSection(all, level, size, UpTo(all, level)[k], end) <==> end == StartOf(UpTo(all, level), k + 1, size)
  {
    var headings := UpTo(all, level);
    forall g | g in all && g.level <= level && headings[k].end <= g.start
      ensures k + 1 < |headings| && headings[k + 1].start <= g.start < size
    {
      UpToMembers(all, level, g);
      var j :| 0 <= j < |headings| && headings[j] == g;
      LaterHeadings(headings, size, k, j);
    }
    if k + 1 < |headings| {
      UpToMembers(all, level, headings[k + 1]);
    }
  }

  lemma {:induction false} SectionMeans(all: seq<Heading>, level: nat, size: nat, s: Section)
    requires InOrder(UpTo(all, level), 0, size)
    ensures s in SectionsOf(all, level, size) <==> IsSection(all, level, size, s)
  {
    var headings := UpTo(all, level);
    PickedMembers(headings, level, size, |headings|, s);
    forall k | 0 <= k < |headings| && headings[k].level == level && s == SectionAt(headings, k, size)
      ensures IsSection(all, level, size, s)
    {
      NextEnds(all, level, size, k, s.end);
      UpToMembers(all, level, headings[k]);
    }
    if IsSection(all, level, size, s) {
      var h :| h in all && h.level == level && s.title == h.title && s.start == h.end && EndsSection(all, level, size, h, s.end);
      UpToMembers(all, level, h);
      var k :| 0 <= k < |headings| && headings[k] == h;
      NextEnds(all, level, size, k, s.end);
    }
  }

  lemma SectionsApart(headings: seq<Heading>, level: nat, size: nat)
    requires InOrder(headings, 0, size)
    ensures Apart(SectionsOf(headings, level, size), size)
    ensures forall s :: s in SectionsOf(headings, level, size) <==> IsSection(headings, level, size, s)
  {
    UpToInOrder(headings, level, 0, size);
    PickedApart(UpTo(headings, level), level, size, |UpTo(headings, level)|);
    forall s ensures s in SectionsOf(headings, level, size) <==> IsSection(headings, level, size, s) {
      SectionMeans(headings, level, size, s);
    }
  }
}
