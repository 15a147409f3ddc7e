/**
 Which lines of the release notes are what, in terms of their characters: fences, indented code, headings with their
 levels and titles, and the text that comments leave visible.
 */
module NoteLines {
  import opened Basics
  import opened HeadingSections
  import opened ReleaseNotes
  import opened CommentTokens

  predicate AllIn(s: string, cut: string) { forall i :: 0 <= i < |s| ==> s[i] in cut }

  // ----- fences

  /** At most three spaces, three or more of one mark, and what follows them. */
  ghost predicate FenceAt(line: string, f: Fence, indent: nat) {
    && indent <= 3 && 3 <= f.length && indent + f.length <= |line| && f.marker in "`~"
    && (forall i :: 0 <= i < indent ==> line[i] == ' ')
    && (forall i :: indent <= i < indent + f.length ==> line[i] == f.marker)
    && f.info == line[indent + f.length..] && (f.info != "" ==> f.info[0] != f.marker)
  }

  ghost predicate IsFence(line: string, f: Fence) { exists indent: nat :: FenceAt(line, f, indent) }

  lemma {:induction false} LeadingIs(s: string, c: char, n: nat)
    requires n <= |s| && (forall i :: 0 <= i < n ==> s[i] == c) && (n < |s| ==> s[n] != c)
    ensures Leading(s, c) == n
  {
    assert Leading(s, c) < |s| ==> s[Leading(s, c)] != c;
  }

  lemma FencesExactly(line: string, f: Fence)
    ensures FenceOf(line) == Some(f) <==> IsFence(line, f)
  {
    hide FenceOf, FenceAt;
    if FenceOf(line) == Some(f) {
      FenceFound(line, f);
    }
    if k: nat :| FenceAt(line, f, k) {
      FenceGiven(line, f, k);
    }
  }

  lemma {:induction false} FenceFound(line: string, f: Fence)
    requires FenceOf(line) == Some(f)
    ensures FenceAt(line, f, Leading(line, ' '))
  {
    var indent := Leading(line, ' ');
    var content := line[indent..];
    assert forall i :: indent <= i < indent + f.length ==> line[i] == content[i - indent];
    assert content[f.length..] == line[indent + f.length..];
  }

  lemma FenceGiven(line: string, f: Fence, indent: nat)
    requires FenceAt(line, f, indent)
    ensures FenceOf(line) == Some(f)
  {
    LeadingIs(line, ' ', indent);
    var content := line[indent..];
    assert content[f.length..] == line[indent + f.length..];
    assert f.length < |content| ==> content[f.length] == f.info[0];
    LeadingIs(content, f.marker, f.length);
  }

  ghost predicate Closes(line: string, open: Fence) {
    exists c :: IsFence(line, c) && c.marker == open.marker && c.length >= open.length && AllIn(c.info, " \t\r\n")
  }

  ghost predicate OpensWith(line: string, f: Fence) { IsFence(line, f) && (f.marker == '~' || '`' !in f.info) }

  lemma ClosesExactly(line: string, open: Fence)
    ensures Closes(line, open) <==> FenceCloses(FenceOf(line), open)
  {
    hide IsFence, FenceOf;
    if FenceCloses(FenceOf(line), open) {
      var c := FenceOf(line).value;
      FencesExactly(line, c);
      assert IsFence(line, c) && AllIn(c.info, " \t\r\n");
    }
    if c :| IsFence(line, c) && c.marker == open.marker && c.length >= open.length && AllIn(c.info, " \t\r\n") {
      FencesExactly(line, c);
      assert FenceOf(line).value == c && BlankText(c.info);
    }
  }

  lemma OpensExactly(line: string)
    ensures Opens(FenceOf(line)) <==> exists f :: OpensWith(line, f)
    ensures Opens(FenceOf(line)) ==> OpensWith(line, FenceOf(line).value)
  {
    hide IsFence, FenceOf;
    if FenceOf(line).Some? {
      FencesExactly(line, FenceOf(line).value);
      assert Opens(FenceOf(line)) ==> OpensWith(line, FenceOf(line).value);
    }
    if f :| OpensWith(line, f) {
      FencesExactly(line, f);
      assert FenceOf(line).value == f;
    }
  }

  // ----- one line after another

  ghost predicate IsCode(line: string) {
    (|line| >= 4 && line[..4] == "    ") || (line != "" && line[0] == '\t')
  }

  /** The line with its comments blanked, and whether one is left open. */
  ghost predicate Shows(line: string, carried: bool, visible: string, open: bool) {
    exists tokens :: Tiled(line, 0, carried, tokens) && visible == Images(line, tokens) && open == EndsOpen(line, carried, tokens)
  }

  /** In a fence a line is literal until one closes it; outside comments a fence opens or code is indented; all else is visible text. */
  ghost predicate IsRow(line: string, mode: Mode, row: Row, next: Mode) {
    if mode.fence.Some? then
      && row == Row(line, false, !Closes(line, mode.fence.value))
      && next == Mode(if Closes(line, mode.fence.value) then None else mode.fence, mode.comment)
    else if !mode.comment && exists f :: OpensWith(line, f) then
      row == Row(line, false, false) && next.fence.Some? && OpensWith(line, next.fence.value) && !next.comment
    else if !mode.comment && IsCode(line) then row == Row(line, false, true) && next == mode
    else row.heading && row.guidance && next.fence.None? && Shows(line, mode.comment, row.text, next.comment)
  }

  lemma RowExactly(line: string, mode: Mode)
    ensures IsRow(line, mode, NextRow(line, mode).0, NextRow(line, mode).1)
  {
    hide FenceOf, FenceCloses, Opens, Closes, OpensWith, Shows, Masked, IsIndented, IsCode;
    if mode.fence.Some? {
      ClosesExactly(line, mode.fence.value);
    }
    OpensExactly(line);
    FenceIsSome(line);
    CodeExactly(line);
    VisibleShows(line, mode.comment);
  }

  lemma FenceIsSome(line: string)
    ensures Opens(FenceOf(line)) ==> FenceOf(line).Some?
  {
    hide FenceOf;
  }

  lemma CodeExactly(line: string)
    ensures IsIndented(line) <==> IsCode(line)
  {
  }

  lemma {:induction false} VisibleShows(line: string, carried: bool)
    ensures var masked := Masked(line, 0, carried); Shows(line, carried, masked.0, masked.1)
  {
    hide Masked, Tiled, Images, EndsOpen;
    var tokens := MaskIsTokens(line, 0, carried);
  }

  ghost predicate AreRows(lines: seq<string>, mode: Mode, rows: seq<Row>, modes: seq<Mode>) {
    && |rows| == |lines| && |modes| == |lines| + 1 && modes[0] == mode
    && forall i :: 0 <= i < |lines| ==> IsRow(lines[i], modes[i], rows[i], modes[i + 1])
  }

  /** The rows of a text follow from one another, beginning outside fences and comments. */
  lemma {:induction false} RowsExactly(lines: seq<string>, mode: Mode) returns (modes: seq<Mode>)
    ensures AreRows(lines, mode, Rows(lines, mode), modes)
  {
    hide IsRow;
    if lines == [] {
      modes := [mode];
    } else {
      var (row, next) := NextRow(lines[0], mode);
      RowExactly(lines[0], mode);
      var rest := RowsExactly(lines[1..], next);
      modes := [mode] + rest;
      var rows := Rows(lines, mode);
      assert rows == [row] + Rows(lines[1..], next);
      forall i | 0 <= i < |lines| ensures IsRow(lines[i], modes[i], rows[i], modes[i + 1]) {
        if i > 0 {
          assert IsRow(lines[1..][i - 1], rest[i - 1], Rows(lines[1..], next)[i - 1], rest[i]);
        }
      }
    }
  }

  /** A line ends with its one line feed; only the last may have none. */
  ghost predicate IsLine(line: string, last: bool) {
    line != "" && (forall i :: 0 <= i < |line| - 1 ==> line[i] != '\n') && (!last ==> line[|line| - 1] == '\n')
  }

  lemma {:induction false} LinesExactly(text: string)
    ensures Concat(Lines(text)) == text
    ensures forall i :: 0 <= i < |Lines(text)| ==> IsLine(Lines(text)[i], i == |Lines(text)| - 1)
    decreases |text|
  {
    LinesJoin(text);
    if text != "" {
      var at := Find(text, 0, "\n");
      forall p | 0 <= p < |text| && (at.Some? ==> p < at.value) ensures text[p] != '\n' {
        assert !StartsAt(text, p, "\n");
        assert text[p..p + 1] == [text[p]];
      }
      if at.Some? {
        assert text[at.value..at.value + 1] == "\n";
        LinesExactly(text[at.value + 1..]);
        var rest := Lines(text[at.value + 1..]);
        assert Lines(text) == [text[..at.value + 1]] + rest;
        assert IsLine(text[..at.value + 1], false);
        forall i | 0 <= i < |Lines(text)| ensures IsLine(Lines(text)[i], i == |Lines(text)| - 1) {
          assert i > 0 ==> Lines(text)[i] == rest[i - 1];
        }
      }
    }
  }
  // ----- headings

  /** `inner` is `s` without the characters of `cut` around it. */
  ghost predicate IsStripped(s: string, inner: string, cut: string) {
    && (inner == "" || (inner[0] !in cut && inner[|inner| - 1] !in cut))
    && exists before, after :: s == before + inner + after && AllIn(before, cut) && AllIn(after, cut)
  }

  /** `kept` is `s` without the characters of `cut` at its end. */
  ghost predicate IsCutBack(s: string, kept: string, cut: string) {
    && (kept == "" || kept[|kept| - 1] !in cut)
    && exists after :: s == kept + after && AllIn(after, cut)
  }

  /** A closing run of hashes goes when it is all there is or follows a blank. */
  ghost predicate IsTitle(content: string, title: string) {
    exists inner, open ::
      && IsStripped(content, inner, " \t\r\n") && IsCutBack(inner, open, "#")
      && if open == "" || open[|open| - 1] in " \t" then IsCutBack(open, title, " \t") else title == inner
  }

  ghost predicate HeadingAt(text: string, level: nat, indent: nat) {
    && indent <= 3 && 1 <= level <= 6 && indent + level <= |text|
    && (forall i :: 0 <= i < indent ==> text[i] == ' ') && (forall i :: indent <= i < indent + level ==> text[i] == '#')
    && (indent + level < |text| ==> text[indent + level] in " \t\r\n")
  }

  /** At most three spaces, one to six hashes, and then the end or a blank and the title. */
  ghost predicate IsHeading(row: Row, level: nat, title: string) {
    row.heading && exists indent: nat :: HeadingAt(row.text, level, indent) && IsTitle(row.text[indent + level..], title)
  }

  lemma {:induction false} CutsBack(s: string, cut: string)
    ensures IsCutBack(s, StripEnd(s, cut), cut)
    ensures forall kept :: IsCutBack(s, kept, cut) ==> kept == StripEnd(s, cut)
  {
    if s != "" && s[|s| - 1] in cut {
      CutsBack(s[..|s| - 1], cut);
      var kept := StripEnd(s[..|s| - 1], cut);
      var after :| s[..|s| - 1] == kept + after && AllIn(after, cut);
      assert s == kept + (after + [s[|s| - 1]]) && AllIn(after + [s[|s| - 1]], cut);
    } else {
      assert s == s + "" && AllIn("", cut);
    }
    forall kept | IsCutBack(s, kept, cut) ensures kept == StripEnd(s, cut) {
      OneCut(s, kept, StripEnd(s, cut), cut);
    }
  }

  lemma InTail(s: string, head: string, tail: string, cut: string)
    requires s == head + tail && AllIn(tail, cut)
    ensures forall i :: |head| <= i < |s| ==> s[i] in cut
  {
    assert forall i :: |head| <= i < |s| ==> s[i] == tail[i - |head|];
  }

  lemma OneCut(s: string, a: string, b: string, cut: string)
    requires IsCutBack(s, a, cut) && IsCutBack(s, b, cut)
    ensures a == b
  {
    var x :| s == a + x && AllIn(x, cut);
    var y :| s == b + y && AllIn(y, cut);
    InTail(s, a, x, cut);
    InTail(s, b, y, cut);
    assert a == s[..|a|] && b == s[..|b|];
    assert a != "" ==> s[|a| - 1] == a[|a| - 1];
    assert b != "" ==> s[|b| - 1] == b[|b| - 1];
  }

  lemma {:induction false} StripsStart(s: string, cut: string) returns (before: string)
    ensures s == before + StripStart(s, cut) && AllIn(before, cut)
    ensures StripStart(s, cut) == "" || StripStart(s, cut)[0] !in cut
  {
    if s != "" && s[0] in cut {
      var rest := StripsStart(s[1..], cut);
      before := [s[0]] + rest;
      assert s == [s[0]] + s[1..];
    } else {
      before := "";
    }
  }

  lemma {:induction false} StripsExactly(s: string, cut: string)
    ensures IsStripped(s, StripEnd(StripStart(s, cut), cut), cut)
    ensures forall inner :: IsStripped(s, inner, cut) ==> inner == StripEnd(StripStart(s, cut), cut)
  {
    var before := StripsStart(s, cut);
    var rest := StripStart(s, cut);
    CutsBack(rest, cut);
    var inner := StripEnd(rest, cut);
    var after :| rest == inner + after && AllIn(after, cut);
    assert s == before + inner + after;
    assert inner != "" ==> inner[0] == rest[0];
    forall other | IsStripped(s, other, cut) ensures other == inner {
      OneStrip(s, other, inner, cut);
    }
  }

  lemma OneStrip(s: string, a: string, b: string, cut: string)
    requires IsStripped(s, a, cut) && IsStripped(s, b, cut)
    ensures a == b
  {
    var p, q :| s == p + a + q && AllIn(p, cut) && AllIn(q, cut);
    var u, v :| s == u + b + v && AllIn(u, cut) && AllIn(v, cut);
    NotInside(s, p, a, q, u, b, v, cut);
    NotInside(s, u, b, v, p, a, q, cut);
  }

  /** Two strippings begin at the same place, unless nothing is left. */
  lemma NotInside(s: string, p: string, a: string, q: string, u: string, b: string, v: string, cut: string)
    requires s == p + a + q && AllIn(p, cut) && AllIn(q, cut) && (a == "" || (a[0] !in cut && a[|a| - 1] !in cut))
    requires s == u + b + v && AllIn(u, cut) && AllIn(v, cut) && (b == "" || (b[0] !in cut && b[|b| - 1] !in cut))
    ensures a != "" ==> |u| <= |p| && |v| <= |q| && b != ""
    ensures a != "" && b != "" && |u| == |p| && |v| == |q| ==> a == b
  {
    Regroup(u, b, v);
    InTail(s, u + b, v, cut);
    assert forall i :: 0 <= i < |u| ==> s[i] == u[i];
    assert a != "" ==> s[|p|] == a[0] && s[|p| + |a| - 1] == a[|a| - 1];
    if |u| == |p| && |v| == |q| {
      assert a == s[|p|..|p| + |a|] && b == s[|u|..|u| + |b|];
    }
  }

  lemma TitlesExactly(content: string, title: string)
    ensures Title(content) == title <==> IsTitle(content, title)
  {
    var inner := StripEnd(StripStart(content, " \t\r\n"), " \t\r\n");
    var open := StripEnd(inner, "#");
    StripsExactly(content, " \t\r\n");
    CutsBack(inner, "#");
    CutsBack(open, " \t");
    assert IsStripped(content, inner, " \t\r\n") && IsCutBack(inner, open, "#");
  }

  /** A row is a heading of this level and title exactly when its text says so. */
  lemma HeadingsExactly(row: Row, level: nat, title: string)
    ensures MarkOf(row).heading == Titled(level, title) <==> IsHeading(row, level, title)
  {
    hide MarkOf, IsTitle, HeadingAt;
    var text := row.text;
    if MarkOf(row).heading == Titled(level, title) {
      IndentedIsNone(row);
      MarkFound(row, level, title);
    }
    if k: nat :| HeadingAt(text, level, k) && k + level <= |text| && row.heading && IsTitle(text[k + level..], title) {
      MarkGiven(row, level, title, k);
    }
    HeadingFits(text, level);
  }

  lemma HeadingFits(text: string, level: nat)
    ensures forall k: nat :: HeadingAt(text, level, k) ==> k + level <= |text|
  {
  }

  lemma IndentedIsNone(row: Row)
    ensures MarkOf(row).heading.Titled? ==> Leading(row.text, ' ') <= 3
  {
    if Leading(row.text, ' ') > 3 {
      assert row.text[0] == ' ';
      LeadingIs(row.text, '#', 0);
    }
  }

  lemma MarkFound(row: Row, level: nat, title: string)
    requires MarkOf(row).heading == Titled(level, title) && Leading(row.text, ' ') <= 3
    ensures IsHeading(row, level, title)
  {
    hide Title, IsTitle;
    var text, indent := row.text, Leading(row.text, ' ');
    assert forall i :: indent <= i < indent + level ==> text[i] == text[indent..][i - indent];
    assert text[indent..][level..] == text[indent + level..];
    TitlesExactly(text[indent + level..], title);
    assert HeadingAt(text, level, indent);
  }

  lemma MarkGiven(row: Row, level: nat, title: string, indent: nat)
    requires row.heading && HeadingAt(row.text, level, indent) && IsTitle(row.text[indent + level..], title)
    ensures MarkOf(row).heading == Titled(level, title)
  {
    hide Title, IsTitle;
    var text, heading := row.text, row.text[indent..];
    LeadingIs(text, ' ', indent);
    assert indent + level < |text| ==> heading[level] == text[indent + level];
    LeadingIs(heading, '#', level);
    assert heading[level..] == text[indent + level..];
    TitlesExactly(text[indent + level..], title);
  }

  /** Where row `i` begins. */
  function OffsetOf(rows: seq<Row>, i: nat): nat
    requires i <= |rows|
  {
    if i == 0 then 0 else OffsetOf(rows, i - 1) + |rows[i - 1].text|
  }

  /** The headings found are exactly the rows that are headings, each from where it begins to where the next row does. */
  lemma {:induction false} FoundExactly(rows: seq<Row>, i: nat, h: Heading)
    requires i <= |rows|
    ensures h in HeadingsFrom(Marks(rows), i, OffsetOf(rows, i)) <==>
      exists k :: i <= k < |rows| && IsHeading(rows[k], h.level, h.title) && h.start == OffsetOf(rows, k) && h.end == OffsetOf(rows, k + 1)
    decreases |rows| - i
  {
    hide IsHeading, MarkOf;
    if i < |rows| {
      FoundExactly(rows, i + 1, h);
      MarkPlaced(rows[i], OffsetOf(rows, i), h);
      assert OffsetOf(rows, i + 1) == OffsetOf(rows, i) + |rows[i].text|;
      assert Marks(rows)[i] == MarkOf(rows[i]);
    }
  }

  lemma MarkPlaced(row: Row, offset: nat, h: Heading)
    ensures MarkOf(row).size == |row.text|
    ensures h in HeadingsAt(MarkOf(row), offset) <==>
      IsHeading(row, h.level, h.title) && h.start == offset && h.end == offset + |row.text|
  {
    hide IsHeading;
    HeadingsExactly(row, h.level, h.title);
  }
}
