/**
 What masking a line means: the line splits in one way only into escapes, code spans, comments and single
 characters, and exactly the comments are blanked. A comment begins at an opening mark that no escape or code
 span takes up, or where an open one was carried in, and ends with the first closing mark or with the line.
 */
module CommentTokens {
  import opened Basics
  import opened CodeSpans
  import opened ReleaseNotes

  datatype Token = Escape(from: nat, to: nat) | Code(from: nat, to: nat) | Comment(from: nat, to: nat) | Plain(from: nat, to: nat)

  ghost predicate Closes(line: string, from: nat) { exists p :: from <= p && StartsAt(line, p, "-->") }

  ghost predicate FirstClose(line: string, from: nat, p: nat) {
    from <= p && StartsAt(line, p, "-->") && forall q :: from <= q < p ==> !StartsAt(line, q, "-->")
  }

  /** From one run of backticks to the nearest later run of equal length. */
  ghost predicate Span(line: string, from: nat, to: nat) {
    exists length: nat :: (
      && HasRun(line, from, length) && HasRun(line, to - length, length) && from + length <= to - length
      && forall p :: from + length <= p < to - length ==> !HasRun(line, p, length))
  }

  /** What may stand at its place, with a comment carried in or not. */
  ghost predicate TokenOk(line: string, carried: bool, t: Token) {
    && t.from < t.to <= |line| && (carried ==> t.Comment?)
    && match t
       case Escape(from, to) => line[from] == '\\' && to == Min(from + 2, |line|)
       case Code(from, to) => Span(line, from, to)
       case Comment(from, to) =>
         && (carried || StartsAt(line, from, "<!--"))
         && if Closes(line, from) then to >= 3 && FirstClose(line, from, to - 3) else to == |line|
       case Plain(from, to) =>
         to == from + 1 && line[from] != '\\' && !StartsAt(line, from, "<!--") && forall end :: !Span(line, from, end)
  }

  ghost predicate Tiled(line: string, position: nat, carried: bool, tokens: seq<Token>)
    decreases |tokens|
  {
    if tokens == [] then position == |line|
    else tokens[0].from == position && TokenOk(line, carried, tokens[0]) && Tiled(line, tokens[0].to, false, tokens[1..])
  }

  ghost function Image(line: string, t: Token): string
    requires t.from <= t.to <= |line|
  {
    if t.Comment? then Blanked(line[t.from..t.to]) else line[t.from..t.to]
  }

  ghost function Images(line: string, tokens: seq<Token>): string {
    if tokens == [] then ""
    else if tokens[0].from <= tokens[0].to <= |line| then Image(line, tokens[0]) + Images(line, tokens[1..])
    else Images(line, tokens[1..])
  }

  /** A comment is open after the line: its last token is a comment without a closing mark, or it has none. */
  ghost predicate EndsOpen(line: string, carried: bool, tokens: seq<Token>) {
    if tokens == [] then carried
    else tokens[|tokens| - 1].Comment? && !Closes(line, tokens[|tokens| - 1].from)
  }

  lemma SpanIsCodeEnd(line: string, from: nat, to: nat)
    ensures Span(line, from, to) <==> CodeEnd(line, from) == Some(to)
  {
    hide Span, CodeEnd;
    if CodeEnd(line, from) == Some(to) {
      CodeEndIsSpan(line, from, to);
    }
    if Span(line, from, to) {
      SpanEnds(line, from, to);
    }
  }

  lemma CodeEndIsSpan(line: string, from: nat, to: nat)
    requires CodeEnd(line, from) == Some(to)
    ensures Span(line, from, to)
  {
    var end := RunEnd(line, from);
    RunOf(line, from, end);
    CodeEndIsNearest(line, from, end - from);
    assert HasRun(line, from, end - from);
  }

  lemma SpanEnds(line: string, from: nat, to: nat)
    requires Span(line, from, to)
    ensures CodeEnd(line, from) == Some(to)
  {
    hide CodeEnd;
    var length: nat :| HasRun(line, from, length) && HasRun(line, to - length, length) && from + length <= to - length
      && forall p :: from + length <= p < to - length ==> !HasRun(line, p, length);
    CodeEndIsNearest(line, from, length);
    OneRunOnly(line, from, length);
  }

  lemma OneRunOnly(line: string, from: nat, length: nat)
    requires HasRun(line, from, length) && CodeEnd(line, from).Some?
    ensures exists q :: from + length <= q && HasRun(line, q, length) && CodeEnd(line, from).value == q + length
  {
    CodeEndIsNearest(line, from, length);
    assert HasRun(line, CodeEnd(line, from).value - length, length);
  }

  lemma {:induction false} CommentAt(line: string, from: nat)
    requires from < |line|
    ensures var end := Find(line, from, "-->");
      && (end.Some? <==> Closes(line, from))
      && (end.Some? ==> FirstClose(line, from, end.value) && from < end.value + 3 <= |line|)
  {
  }

  /** The mask is the line with the comments of its tokens blanked. */
  lemma {:induction false} MaskIsTokens(line: string, position: nat, carried: bool) returns (tokens: seq<Token>)
    requires position <= |line|
    ensures Tiled(line, position, carried, tokens)
    ensures Masked(line, position, carried) == (Images(line, tokens), EndsOpen(line, carried, tokens))
    decreases |line| - position
  {
    if position == |line| {
      tokens := [];
    } else {
      var first := TokenAt(line, position, carried);
      var rest := MaskIsTokens(line, first.to, false);
      tokens := [first] + rest;
      assert tokens[1..] == rest;
    }
  }

  lemma TokenAt(line: string, position: nat, carried: bool) returns (t: Token)
    requires position < |line|
    ensures t.from == position && TokenOk(line, carried, t)
    ensures Masked(line, position, carried) ==
      (Image(line, t) + Masked(line, t.to, false).0,
       if t.Comment? && !Closes(line, position) then true else Masked(line, t.to, false).1)
  {
    CommentAt(line, position);
    var end := Find(line, position, "-->");
    if carried || (line[position] != '\\' && CodeEnd(line, position).None? && StartsAt(line, position, "<!--")) {
      t := Comment(position, if end.None? then |line| else end.value + 3);
      assert Masked(line, position, carried) == Masked(line, position, true);
    } else if line[position] == '\\' {
      t := Escape(position, Min(position + 2, |line|));
      assert Masked(line, position, false) == Kept(line, position, t.to);
    } else if CodeEnd(line, position).Some? {
      CodeEndsLater(line, position);
      SpanIsCodeEnd(line, position, CodeEnd(line, position).value);
      t := Code(position, CodeEnd(line, position).value);
    } else {
      t := Plain(position, position + 1);
      forall e ensures !Span(line, position, e) {
        SpanIsCodeEnd(line, position, e);
      }
    }
  }

  /** A line has one tiling only. */
  lemma {:induction false} OneTiling(line: string, position: nat, carried: bool, s: seq<Token>, t: seq<Token>)
    requires Tiled(line, position, carried, s) && Tiled(line, position, carried, t)
    ensures s == t
    decreases |s|
  {
    if s != [] && t != [] {
      OneToken(line, carried, s[0], t[0]);
      OneTiling(line, s[0].to, false, s[1..], t[1..]);
      assert s == [s[0]] + s[1..] && t == [t[0]] + t[1..];
    }
  }

  lemma OneToken(line: string, carried: bool, t: Token, u: Token)
    requires TokenOk(line, carried, t) && TokenOk(line, carried, u) && t.from == u.from
    ensures t == u
  {
    SpanIsCodeEnd(line, t.from, t.to);
    SpanIsCodeEnd(line, t.from, u.to);
  }
}
