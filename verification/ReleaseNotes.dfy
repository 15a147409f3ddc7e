/**
 Release notes: comments are masked without moving anything, so headings found in the masked text cut the
 original text into ordered, disjoint sections.
 */
module ReleaseNotes {
  import opened Basics
  import opened CodeSpans
  import opened HeadingSections

  predicate IsBreak(c: char) { c == '\r' || c == '\n' }

  /** Same length; every character kept or, unless it breaks a line, blanked. */
  ghost predicate Masks(visible: string, text: string) {
    |visible| == |text| && forall i :: 0 <= i < |text| ==> visible[i] == text[i] || (visible[i] == ' ' && !IsBreak(text[i]))
  }

  function Blanked(s: string): string {
    seq(|s|, i requires 0 <= i < |s| => if IsBreak(s[i]) then s[i] else ' ')
  }

  predicate StartsAt(line: string, p: nat, prefix: string) {
    p + |prefix| <= |line| && line[p..p + |prefix|] == prefix
  }

  /** The first place at or after `from` where `word` stands. */
  function Find(line: string, from: nat, word: string): (at: Option<nat>)
    ensures at.Some? ==> from <= at.value && StartsAt(line, at.value, word)
    ensures forall p :: from <= p && (at.Some? ==> p < at.value) ==> !StartsAt(line, p, word)
    decreases |line| + 1 - from
  {
    if from + |word| > |line| then None
    else if StartsAt(line, from, word) then Some(from)
    else Find(line, from + 1, word)
  }

  function Min(a: nat, b: nat): nat { if a < b then a else b }

  /** What becomes of the line from `position` on, and whether a comment is still open after it. */
  function Masked(line: string, position: nat, comment: bool): (string, bool)
    decreases |line| - Min(position, |line|), if comment then 0 else 1
  {
    if position >= |line| then ("", comment)
    else if comment then
      var end := Find(line, position, "-->");
      var stop := if end.None? then |line| else end.value + 3;
      var rest := Masked(line, stop, end.None?);
      (Blanked(line[position..stop]) + rest.0, rest.1)
    else if line[position] == '\\' then Kept(line, position, Min(position + 2, |line|))
    else if CodeEnd(line, position).Some? then
      CodeEndsLater(line, position);
      Kept(line, position, CodeEnd(line, position).value)
    else if StartsAt(line, position, "<!--") then Masked(line, position, true)
    else Kept(line, position, position + 1)
  }

  function Kept(line: string, position: nat, stop: nat): (string, bool)
    requires position < stop <= |line|
    decreases |line| - position, 0
  {
    var rest := Masked(line, stop, false);
    (line[position..stop] + rest.0, rest.1)
  }

  lemma CodeEndsLater(line: string, p: nat)
    requires CodeEnd(line, p).Some?
    ensures p < CodeEnd(line, p).value <= |line|
  {
    var end := RunEnd(line, p);
    RunOf(line, p, end);
    CodeEndIsNearest(line, p, end - p);
  }

  lemma {:induction false} MaskedMasks(line: string, position: nat, comment: bool)
    ensures Masks(Masked(line, position, comment).0, line[Min(position, |line|)..])
    decreases |line| - Min(position, |line|), if comment then 0 else 1
  {
    if position < |line| {
      if comment {
        var end := Find(line, position, "-->");
        var stop := if end.None? then |line| else end.value + 3;
        MaskedMasks(line, stop, end.None?);
        Joined(line, position, stop, Blanked(line[position..stop]), Masked(line, stop, end.None?).0);
      } else if line[position] == '\\' || CodeEnd(line, position).Some? || !StartsAt(line, position, "<!--") {
        var stop := if line[position] == '\\' then Min(position + 2, |line|)
          else if CodeEnd(line, position).Some? then CodeEnd(line, position).value else position + 1;
        if CodeEnd(line, position).Some? {
          CodeEndsLater(line, position);
        }
        MaskedMasks(line, stop, false);
        Joined(line, position, stop, line[position..stop], Masked(line, stop, false).0);
      } else {
        MaskedMasks(line, position, true);
      }
    }
  }

  lemma Joined(line: string, position: nat, stop: nat, head: string, tail: string)
    requires position <= stop <= |line| && Masks(head, line[position..stop]) && Masks(tail, line[stop..])
    ensures Masks(head + tail, line[position..])
  {
    assert line[position..] == line[position..stop] + line[stop..];
  }

  /** A line without an opening mark, read outside a comment, stays as it is. */
  lemma {:induction false} NothingToMask(line: string, position: nat)
    requires forall p :: 0 <= p ==> !StartsAt(line, p, "<!--")
    ensures Masked(line, position, false) == (line[Min(position, |line|)..], false)
    decreases |line| - Min(position, |line|)
  {
    if position < |line| {
      var stop := if line[position] == '\\' then Min(position + 2, |line|)
        else if CodeEnd(line, position).Some? then CodeEnd(line, position).value else position + 1;
      if CodeEnd(line, position).Some? {
        CodeEndsLater(line, position);
      }
      NothingToMask(line, stop);
      assert line[position..] == line[position..stop] + line[stop..];
    }
  }

  /** The scanner at `position`: what lies before it is done, what lies after it is untouched. */
  ghost predicate Scanned(line: string, open: bool, visible: string, position: nat, comment: bool) {
    var at := Min(position, |line|);
    && |visible| == |line| && visible[at..] == line[at..]
    && Masked(line, 0, open).0 == visible[..at] + Masked(line, position, comment).0
    && Masked(line, 0, open).1 == Masked(line, position, comment).1
  }

  /** The scanner: one pass with a position that skips escapes, code spans and comments. */
  method CommentLine(line: string, open: bool) returns (visible: string, comment: bool)
    ensures visible == Masked(line, 0, open).0 && comment == Masked(line, 0, open).1
  {
    visible := line;
    comment := open;
    var codeEnds := CodeSpanEnds(line);
    var position := 0;
    while position < |line|
      invariant Scanned(line, open, visible, position, comment)
      decreases |line| - position, !comment
    {
      if comment {
        var end := Find(line, position, "-->");
        var stop := if end.None? then |line| else end.value + 3;
        BlankTo(line, open, visible, position, end);
        visible := visible[..position] + Blanked(line[position..stop]) + visible[stop..];
        position := stop;
        comment := end.None?;
      } else if line[position] == '\\' {
        KeepTo(line, open, visible, position, Min(position + 2, |line|));
        position := position + 2;
        PastEnd(line, position);
      } else if position in codeEnds {
        CodeEndsLater(line, position);
        KeepTo(line, open, visible, position, codeEnds[position]);
        position := codeEnds[position];
      } else if StartsAt(line, position, "<!--") {
        comment := true;
      } else {
        KeepTo(line, open, visible, position, position + 1);
        position := position + 1;
      }
    }
    assert visible[..Min(position, |line|)] == visible;
  }

  lemma {:induction false} PastEnd(line: string, position: nat)
    ensures Masked(line, position, false) == Masked(line, Min(position, |line|), false)
  {
  }

  /** Keeping the characters up to `stop`, as the mask does, is a step of the scanner. */
  lemma {:induction false} KeepTo(line: string, open: bool, visible: string, position: nat, stop: nat)
    requires Scanned(line, open, visible, position, false)
    requires position < stop <= |line| && Masked(line, position, false) == Kept(line, position, stop)
    ensures Scanned(line, open, visible, stop, false)
  {
    SameFrom(visible, line, position, stop);
    Regroup(visible[..position], line[position..stop], Masked(line, stop, false).0);
  }

  lemma SameFrom(visible: string, line: string, position: nat, stop: nat)
    requires position <= stop <= |line| == |visible| && visible[position..] == line[position..]
    ensures visible[stop..] == line[stop..] && visible[..stop] == visible[..position] + line[position..stop]
  {
    assert visible[stop..] == visible[position..][stop - position..];
    assert visible[position..stop] == visible[position..][..stop - position];
    assert visible[..stop] == visible[..position] + visible[position..stop];
  }

  /** Blanking up to the end of the comment is one too. */
  lemma {:induction false} BlankTo(line: string, open: bool, visible: string, position: nat, end: Option<nat>)
    requires position < |line| && Scanned(line, open, visible, position, true) && end == Find(line, position, "-->")
    ensures var stop := if end.None? then |line| else end.value + 3;
      position < stop <= |line| && Scanned(line, open, visible[..position] + Blanked(line[position..stop]) + visible[stop..], stop, end.None?)
  {
    var stop := if end.None? then |line| else end.value + 3;
    var blanked := Blanked(line[position..stop]);
    assert visible[stop..] == visible[position..][stop - position..];
    var next := visible[..position] + blanked + visible[stop..];
    assert next[stop..] == line[stop..] && next[..stop] == visible[..position] + blanked;
    Regroup(visible[..position], blanked, Masked(line, stop, end.None?).0);
  }

  // ----- lines, fences and rows

  /** Lines with their terminators. */
  function Lines(text: string): (lines: seq<string>)
    decreases |text|
  {
    if text == "" then []
    else
      var at := Find(text, 0, "\n");
      if at.None? then [text] else [text[..at.value + 1]] + Lines(text[at.value + 1..])
  }

  function Concat(parts: seq<string>): string {
    if parts == [] then "" else parts[0] + Concat(parts[1..])
  }

  lemma {:induction false} LinesJoin(text: string)
    ensures Concat(Lines(text)) == text
    decreases |text|
  {
    if text != "" {
      var at := Find(text, 0, "\n");
      if at.Some? {
        LinesJoin(text[at.value + 1..]);
        assert text == text[..at.value + 1] + text[at.value + 1..];
      } else {
        assert Lines(text)[1..] == [];
      }
    }
  }

  /** How many characters from the start of `s` are `c`. */
  function Leading(s: string, c: char): (n: nat)
    ensures n <= |s| && (forall i :: 0 <= i < n ==> s[i] == c) && (n < |s| ==> s[n] != c)
  {
    if s != "" && s[0] == c then 1 + Leading(s[1..], c) else 0
  }

  datatype Fence = Fence(marker: char, length: nat, info: string)

  function FenceOf(line: string): Option<Fence> {
    var content := line[Leading(line, ' ')..];
    if |line| - |content| > 3 || content == "" || (content[0] != '`' && content[0] != '~') then None
    else
      var length := Leading(content, content[0]);
      if length < 3 then None else Some(Fence(content[0], length, content[length..]))
  }

  predicate BlankText(s: string) { forall i :: 0 <= i < |s| ==> s[i] in " \t\r\n" }

  predicate FenceCloses(candidate: Option<Fence>, open: Fence) {
    candidate.Some? && candidate.value.marker == open.marker && candidate.value.length >= open.length && BlankText(candidate.value.info)
  }

  predicate Opens(candidate: Option<Fence>) {
    candidate.Some? && (candidate.value.marker == '~' || '`' !in candidate.value.info)
  }

  predicate IsIndented(line: string) { "    " <= line || "\t" <= line }

  /** A line as later passes see it: masked text, whether it may be a heading, whether it counts as guidance. */
  datatype Row = Row(text: string, heading: bool, guidance: bool)

  datatype Mode = Mode(fence: Option<Fence>, comment: bool)

  function NextRow(line: string, mode: Mode): (Row, Mode) {
    var candidate := FenceOf(line);
    if mode.fence.Some? then
      var closes := FenceCloses(candidate, mode.fence.value);
      (Row(line, false, !closes), mode.(fence := if closes then None else mode.fence))
    else if !mode.comment && Opens(candidate) then (Row(line, false, false), mode.(fence := candidate))
    else if !mode.comment && IsIndented(line) then (Row(line, false, true), mode)
    else
      var masked := Masked(line, 0, mode.comment);
      (Row(masked.0, true, true), mode.(comment := masked.1))
  }

  function Rows(lines: seq<string>, mode: Mode): (rows: seq<Row>)
    ensures |rows| == |lines|
  {
    if lines == [] then []
    else
      var (row, next) := NextRow(lines[0], mode);
      [row] + Rows(lines[1..], next)
  }

  const START := Mode(None, false)

  method ReadLine(line: string, fence0: Option<Fence>, comment0: bool) returns (row: Row, fence: Option<Fence>, comment: bool)
    ensures (row, Mode(fence, comment)) == NextRow(line, Mode(fence0, comment0))
  {
    fence, comment := fence0, comment0;
    var candidate := FenceOf(line);
    if fence.Some? {
      var closes := FenceCloses(candidate, fence.value);
      row := Row(line, false, !closes);
      if closes {
        fence := None;
      }
    } else if !comment && Opens(candidate) {
      fence := candidate;
      row := Row(line, false, false);
    } else if !comment && IsIndented(line) {
      row := Row(line, false, true);
    } else {
      var visible: string;
      visible, comment := CommentLine(line, comment);
      row := Row(visible, true, true);
    }
  }

  method ReleaseLines(text: string) returns (rows: seq<Row>)
    ensures rows == Rows(Lines(text), START)
  {
    var lines := Lines(text);
    rows := [];
    var fence, comment := None, false;
    for i := 0 to |lines|
      invariant rows + Rows(lines[i..], Mode(fence, comment)) == Rows(lines, START)
    {
      RowsStep(lines, i, Mode(fence, comment), rows);
      var row;
      row, fence, comment := ReadLine(lines[i], fence, comment);
      rows := rows + [row];
    }
    assert lines[|lines|..] == [];
  }

  lemma {:induction false} RowsStep(lines: seq<string>, i: nat, mode: Mode, before: seq<Row>)
    requires i < |lines|
    ensures before + Rows(lines[i..], mode) == before + [NextRow(lines[i], mode).0] + Rows(lines[i + 1..], NextRow(lines[i], mode).1)
  {
    assert lines[i..][1..] == lines[i + 1..];
  }

  function Texts(rows: seq<Row>): seq<string> {
    seq(|rows|, i requires 0 <= i < |rows| => rows[i].text)
  }

  /** What the scanner makes visible of a text. */
  function Visible(text: string): string { Concat(Texts(Rows(Lines(text), START))) }

  lemma RowMasks(line: string, mode: Mode)
    ensures Masks(NextRow(line, mode).0.text, line)
  {
    MaskedMasks(line, 0, mode.comment);
    assert line[0..] == line;
  }

  lemma {:induction false} RowsMask(lines: seq<string>, mode: Mode)
    ensures Masks(Concat(Texts(Rows(lines, mode))), Concat(lines))
    ensures forall i :: 0 <= i < |lines| ==> |Rows(lines, mode)[i].text| == |lines[i]|
  {
    if lines != [] {
      RowMasks(lines[0], mode);
      RowsMask(lines[1..], NextRow(lines[0], mode).1);
      assert Texts(Rows(lines, mode))[1..] == Texts(Rows(lines[1..], NextRow(lines[0], mode).1));
    }
  }

  /** Masking moves nothing: every offset and every line break of the text is where it was. */
  lemma VisibleMasks(text: string)
    ensures Masks(Visible(text), text)
  {
    LinesJoin(text);
    RowsMask(Lines(text), START);
  }

  // ----- headings

  function StripEnd(s: string, cut: string): string {
    if s != "" && s[|s| - 1] in cut then StripEnd(s[..|s| - 1], cut) else s
  }

  function StripStart(s: string, cut: string): string {
    if s != "" && s[0] in cut then StripStart(s[1..], cut) else s
  }

  /** The text of a heading without a closing run of hashes, which must follow a blank. */
  function Title(content: string): string {
    var title := StripEnd(StripStart(content, " \t\r\n"), " \t\r\n");
    var open := StripEnd(title, "#");
    if open == "" || open[|open| - 1] == ' ' || open[|open| - 1] == '\t' then StripEnd(open, " \t") else title
  }

  function HeadingText(line: string): string {
    if Leading(line, ' ') <= 3 then line[Leading(line, ' ')..] else line
  }

  /** A row's length and, for a heading outside code and comments, its level and title. */
  function MarkOf(row: Row): Mark {
    var heading := HeadingText(row.text);
    var level := Leading(heading, '#');
    Mark(|row.text|,
         if row.heading && 1 <= level <= 6 && (level == |heading| || heading[level] in " \t\r\n")
         then Titled(level, Title(heading[level..])) else NoHeading)
  }

  lemma HeadingsFit(row: Row)
    ensures MarkOf(row).heading.Titled? ==> MarkOf(row).size > 0
  {
  }

  function Marks(rows: seq<Row>): seq<Mark> {
    seq(|rows|, i requires 0 <= i < |rows| => MarkOf(rows[i]))
  }

  function HeadingsOf(text: string): seq<Heading> { HeadingsFrom(Marks(Rows(Lines(text), START)), 0, 0) }

  method ReleaseHeadings(text: string) returns (headings: seq<Heading>)
    ensures headings == HeadingsOf(text)
  {
    var rows := ReleaseLines(text);
    headings := Headings(Marks(rows));
  }

  lemma {:induction false} SizeIsConcat(rows: seq<Row>, i: nat)
    requires i <= |rows|
    ensures |Concat(Texts(rows)[i..])| == SizeFrom(Marks(rows), i)
    decreases |rows| - i
  {
    if i < |rows| {
      SizeIsConcat(rows, i + 1);
      assert Texts(rows)[i..][1..] == Texts(rows)[i + 1..];
    }
  }

  /** The original and the masked text of a section are cut at the same offsets. */
  method ReleaseSections(text: string, level: nat) returns (sections: seq<Section>)
    ensures sections == SectionsOf(HeadingsOf(text), level, |text|)
  {
    var headings := ReleaseHeadings(text);
    sections := Sections(headings, level, |text|);
  }

  lemma MasksSlice(visible: string, text: string, start: nat, end: nat)
    requires Masks(visible, text) && start <= end <= |text|
    ensures Masks(visible[start..end], text[start..end])
  {
  }

  /** Sections are ordered, disjoint slices of the text, exactly one for each heading of the level, and masking keeps each in place. */
  lemma ReleaseSectionsApart(text: string, level: nat)
    ensures InOrder(HeadingsOf(text), 0, |text|)
    ensures Apart(SectionsOf(HeadingsOf(text), level, |text|), |text|)
    ensures forall s :: s in SectionsOf(HeadingsOf(text), level, |text|) <==> IsSection(HeadingsOf(text), level, |text|, s)
    ensures forall s :: s in SectionsOf(HeadingsOf(text), level, |text|) ==>
      s.start <= s.end <= |text| == |Visible(text)| && Masks(Visible(text)[s.start..s.end], text[s.start..s.end])
  {
    HeadingsInText(text);
    SectionsApart(HeadingsOf(text), level, |text|);
    VisibleMasks(text);
    SectionsMasked(SectionsOf(HeadingsOf(text), level, |text|), Visible(text), text);
  }

  lemma HeadingsInText(text: string)
    ensures InOrder(HeadingsOf(text), 0, |text|)
  {
    var rows := Rows(Lines(text), START);
    VisibleMasks(text);
    forall i | 0 <= i < |rows| ensures Marks(rows)[i].heading.Titled? ==> Marks(rows)[i].size > 0 {
      HeadingsFit(rows[i]);
    }
    HeadingsInOrder(Marks(rows), 0, 0);
    SizeIsConcat(rows, 0);
    assert Texts(rows)[0..] == Texts(rows);
  }

  lemma SectionsMasked(sections: seq<Section>, visible: string, text: string)
    requires Apart(sections, |text|) && Masks(visible, text)
    ensures forall s :: s in sections ==>
      s.start <= s.end <= |text| == |visible| && Masks(visible[s.start..s.end], text[s.start..s.end])
  {
    forall s | s in sections
      ensures s.start <= s.end <= |text| == |visible| && Masks(visible[s.start..s.end], text[s.start..s.end])
    {
      var i :| 0 <= i < |sections| && sections[i] == s;
      MasksSlice(visible, text, s.start, s.end);
    }
  }
}
