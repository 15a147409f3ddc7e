/** The parser accepts exactly the texts of trees, and gives back the tree. */
module JsonRoundTrip {
  import opened Basics
  import opened Decimal
  import opened JsonStrings
  import opened JsonSyntax

  // ----- white space

  lemma {:induction false} SkipSplits(s: string)
    ensures s == Skipped(s) + SkipSpaces(s) && Spaces(Skipped(s))
    ensures SkipSpaces(s) != "" ==> !IsSpace(SkipSpaces(s)[0])
  {
    if s != "" && IsSpace(s[0]) {
      SkipSplits(s[1..]);
      assert Skipped(s) == [s[0]] + Skipped(s[1..]);
    } else {
      assert Skipped(s) == "";
    }
  }

  lemma {:induction false} SkipOver(w: string, rest: string)
    requires Spaces(w) && (rest != "" ==> !IsSpace(rest[0]))
    ensures SkipSpaces(w + rest) == rest && Skipped(w + rest) == w
  {
    if w != "" {
      assert (w + rest)[1..] == w[1..] + rest;
      SkipOver(w[1..], rest);
    } else {
      assert w + rest == rest;
    }
  }

  // ----- tokens

  lemma {:induction false} DigitsComplete(d: string, rest: string)
    requires AllDigits(d) && (rest != "" ==> !IsDigit(rest[0]))
    ensures DigitsOf(d + rest) == d
  {
    if d != "" {
      assert (d + rest)[1..] == d[1..] + rest;
      DigitsComplete(d[1..], rest);
    } else {
      assert d + rest == rest;
    }
  }

  /** After a value comes the end of the text, white space, a comma or a closing bracket. */
  predicate Delimited(rest: string) {
    rest == "" || IsSpace(rest[0]) || rest[0] == ',' || rest[0] == '}' || rest[0] == ']'
  }

  lemma {:induction false} DigitsAlone(s: string)
    ensures DigitsOf(DigitsOf(s)) == DigitsOf(s)
    ensures |DigitsOf(s)| < |s| ==> !IsDigit(s[|DigitsOf(s)|])
  {
    if s != "" && IsDigit(s[0]) {
      DigitsAlone(s[1..]);
      assert DigitsOf(s)[1..] == DigitsOf(s[1..]);
    }
  }

  /** A fraction or exponent is found again in front of what cannot continue it. */
  predicate Ends(rest: string) {
    rest == "" || (!IsDigit(rest[0]) && rest[0] != '.' && rest[0] != 'e' && rest[0] != 'E')
  }

  lemma ExponentFound(s: string, rest: string)
    requires rest == "" || !IsDigit(rest[0])
    ensures ExponentOf(s) != "" ==> ExponentOf(ExponentOf(s) + rest) == ExponentOf(s)
  {
    var e := ExponentOf(s);
    if e != "" {
      var sign := if |s| > 1 && (s[1] == '+' || s[1] == '-') then 2 else 1;
      var d := DigitsOf(s[sign..]);
      assert e == s[..sign] + d && (e + rest)[sign..] == d + rest;
      DigitsComplete(d, rest);
    }
  }

  lemma FractionFound(s: string, rest: string)
    requires rest == "" || !IsDigit(rest[0])
    ensures FractionOf(s) != "" ==> FractionOf(FractionOf(s) + rest) == FractionOf(s)
  {
    var f := FractionOf(s);
    if f != "" {
      var d := DigitsOf(s[1..]);
      assert f == s[..1] + d && (f + rest)[1..] == d + rest;
      DigitsComplete(d, rest);
    }
  }

  lemma TailFound(s: string, rest: string)
    requires Ends(rest)
    ensures TailOf(TailOf(s) + rest) == TailOf(s)
  {
    hide DigitsOf;
    var f := FractionOf(s);
    var e := ExponentOf(s[|f|..]);
    assert f + e + rest == f + (e + rest);
    FractionFound(s, e + rest);
    ExponentFound(s[|f|..], rest);
    assert (f + (e + rest))[|f|..] == e + rest;
  }

  /** Digits and what follows them, regrouped. */
  lemma LexNumberSound(s: string, negative: bool)
    requires LexNumber(s, negative).Parsed?
    ensures var p := LexNumber(s, negative);
      && (p.value.Integer? || p.value.Float?) && p.value.negative == negative && TokenOk(p.value)
      && s == Digits(p.value) + p.rest
  {
    var d := DigitsOf(s);
    var rest := s[|d|..];
    RenderOfValue(d);
    TailAlone(rest);
    Parts(s, |d|, |TailOf(rest)|);
  }

  function Digits(t: Scalar): string
    requires t.Integer? || t.Float?
  {
    if t.Float? then Render(t.digits) + t.tail else Render(t.digits)
  }

  lemma Parts(s: string, m: nat, n: nat)
    requires m + n <= |s|
    ensures s == s[..m] + s[m..] == (s[..m] + s[m..][..n]) + s[m..][n..]
  {
    Regroup(s[..m], s[m..][..n], s[m..][n..]);
    assert s[m..] == s[m..][..n] + s[m..][n..];
  }

  lemma TailAlone(s: string)
    ensures TailOf(TailOf(s)) == TailOf(s)
  {
    TailFound(s, "");
    assert TailOf(s) + "" == TailOf(s);
  }

  lemma LexScalarSound(s: string)
    requires LexScalar(s).Parsed?
    ensures var p := LexScalar(s); s == TokenText(p.value) + p.rest && TokenOk(p.value)
  {
    if s[0] == '"' {
      QuotedSound(s);
    } else if WordAt(WORDS, s).Some? {
      Prefix(WordText(WordAt(WORDS, s).value), s);
    } else {
      NumericSound(s);
    }
  }

  lemma Prefix(w: string, s: string)
    requires w <= s
    ensures s == w + s[|w|..]
  {
  }

  lemma QuotedSound(s: string)
    requires s != "" && s[0] == '"' && LexString(s[1..]).Closed?
    ensures var l := LexString(s[1..]); s == Quoted(l.text) + l.rest && RawText(l.text)
  {
    var l := LexString(s[1..]);
    LexStringSound(s[1..]);
    First(s);
    Regroup([s[0]], l.text + ['"'], l.rest);
    Regroup([s[0]], l.text, ['"']);
  }

  lemma NumericSound(s: string)
    requires s != "" && LexNumeric(s).Parsed?
    ensures var p := LexNumeric(s); s == TokenText(p.value) + p.rest && TokenOk(p.value)
  {
    var p := LexNumeric(s);
    if s[0] == '-' {
      LexNumberSound(s[1..], true);
      First(s);
      Regroup("-", Digits(p.value), p.rest);
    } else {
      LexNumberSound(s, false);
    }
    Signed(p.value);
  }

  /** A number is its sign, if any, and its digits. */
  lemma Signed(t: Scalar)
    requires t.Integer? || t.Float?
    ensures TokenText(t) == if t.negative then "-" + Digits(t) else Digits(t)
  {
    if t.Float? {
      Regroup("-", Render(t.digits), t.tail);
      assert "" + Render(t.digits) == Render(t.digits);
    }
  }

  lemma {:induction false} LexNumberComplete(t: Scalar, rest: string)
    requires (t.Integer? || t.Float?) && TokenOk(t) && Delimited(rest)
    ensures Digits(t) != "" && IsDigit(Digits(t)[0]) && LexNumber(Digits(t) + rest, t.negative) == Parsed(t, rest)
  {
    var tail := if t.Float? then t.tail else "";
    ValueOfRender(t.digits);
    DigitsLexed(Render(t.digits), tail, rest, t.negative);
    Regroup(Render(t.digits), tail, rest);
    assert "" + rest == rest;
  }

  lemma {:induction false} DigitsLexed(d: string, tail: string, rest: string, negative: bool)
    requires IsNumeral(d) && TailOf(tail) == tail && Delimited(rest)
    ensures LexNumber(d + (tail + rest), negative) == Parsed(if tail == "" then Integer(negative, Value(d)) else Float(negative, Value(d), tail), rest)
  {
    TailStarts(tail);
    DigitsComplete(d, tail + rest);
    After(d, tail + rest);
    TailFound(tail, rest);
    After(tail, rest);
  }

  lemma After(s: string, rest: string)
    ensures (s + rest)[|s|..] == rest
  {
  }

  lemma TailStarts(tail: string)
    requires TailOf(tail) == tail
    ensures tail != "" ==> !IsDigit(tail[0])
  {
  }

  lemma NumberComplete(t: Scalar, rest: string)
    requires TokenOk(t) && Delimited(rest) && (t.Integer? || t.Float?)
    ensures TokenText(t) != "" && LexScalar(TokenText(t) + rest) == Parsed(t, rest)
  {
    LexNumberComplete(t, rest);
    Signed(t);
    if t.negative {
      Regroup("-", Digits(t), rest);
      After("-", Digits(t) + rest);
      MinusFirst("-" + (Digits(t) + rest));
    } else {
      DigitFirst(Digits(t) + rest);
    }
  }

  lemma MinusFirst(s: string)
    requires |s| > 1 && s[0] == '-' && IsDigit(s[1])
    ensures LexScalar(s) == LexNumber(s[1..], true)
  {
    NoWord(WORDS, s);
  }

  lemma DigitFirst(s: string)
    requires s != "" && IsDigit(s[0])
    ensures LexScalar(s) == LexNumber(s, false)
  {
    NoWord(WORDS, s);
  }

  /** A number does not begin like a word. */
  lemma {:induction false} NoWord(words: seq<Word>, s: string)
    requires s != "" && (IsDigit(s[0]) || (|s| > 1 && s[0] == '-' && IsDigit(s[1])))
    ensures WordAt(words, s).None?
  {
    if words != [] {
      WordStarts(words[0]);
      NoWord(words[1..], s);
    }
  }

  lemma WordStarts(w: Word)
    ensures var text := WordText(w);
      text[0] !in "0123456789" && (text[0] == '-' ==> |text| > 1 && text[1] == 'I') && text[0] != '"'
  {
    assert !IsDigit(WordText(w)[0]);
  }

  /** Words begin differently. */
  lemma WordByStart(v: Word, w: Word)
    requires WordText(v)[0] == WordText(w)[0]
    ensures v == w
  {
  }

  lemma {:induction false} WordFound(words: seq<Word>, w: Word, s: string)
    requires w in words && WordText(w) <= s
    ensures WordAt(words, s) == Some(w)
  {
    if WordText(words[0]) <= s {
      WordByStart(words[0], w);
    } else {
      WordFound(words[1..], w, s);
    }
  }

  lemma WordComplete(w: Word, rest: string)
    ensures LexScalar(WordText(w) + rest) == Parsed(Literal(w), rest)
  {
    var s := WordText(w) + rest;
    After(WordText(w), rest);
    WordStarts(w);
    assert w in WORDS by { match w case True => case _ => }
    WordFound(WORDS, w, s);
  }

  lemma LexScalarComplete(t: Scalar, rest: string)
    requires TokenOk(t) && Delimited(rest)
    ensures LexScalar(TokenText(t) + rest) == Parsed(t, rest)
  {
    match t
    case Str(raw) =>
      assert (TokenText(t) + rest)[1..] == raw + ['"'] + rest;
      LexStringComplete(raw, rest);
    case Literal(word) => WordComplete(word, rest);
    case _ => NumberComplete(t, rest);
  }

  /** No token and no bracketed text begins with white space or a closing character. */
  lemma {:induction false} TextStarts(n: Node)
    requires NodeOk(n)
    ensures Text(n) != "" && !IsSpace(Text(n)[0]) && Text(n)[0] != ']' && Text(n)[0] != '}'
    ensures n.Leaf? ==> Text(n)[0] != '{' && Text(n)[0] != '['
  {
    if n.Leaf? && (n.token.Integer? || n.token.Float?) {
      ValueOfRender(n.token.digits);
      assert IsDigit(Render(n.token.digits)[0]);
    }
  }

  // ----- sound: what is accepted is the text of a well-formed tree

  lemma {:induction false} NodeSound(s: string)
    requires ParseNode(s).Parsed?
    ensures var p := ParseNode(s); s == Text(p.value) + p.rest && NodeOk(p.value)
    decreases |s|, 0, 1
  {
    if s[0] == '{' || s[0] == '[' {
      BracketSound(s);
    } else {
      LexScalarSound(s);
    }
  }

  lemma First(s: string)
    requires s != ""
    ensures s == [s[0]] + s[1..]
  {
  }

  lemma {:induction false} BracketSound(s: string)
    requires ParseNode(s).Parsed? && (s[0] == '{' || s[0] == '[')
    ensures var p := ParseNode(s); s == Text(p.value) + p.rest && NodeOk(p.value)
    decreases |s|, 0, 0
  {
    var inside, r, p := Skipped(s[1..]), SkipSpaces(s[1..]), ParseNode(s);
    First(s);
    SkipSplits(s[1..]);
    if s[0] == '{' && r[0] != '}' {
      MembersSound(r, {});
      Regroup([s[0]], inside, MembersText(p.value.members) + p.rest);
      Regroup([s[0]] + inside, MembersText(p.value.members), p.rest);
    } else if s[0] == '[' && r[0] != ']' {
      ItemsSound(r);
      Regroup([s[0]], inside, ItemsText(p.value.items) + p.rest);
      Regroup([s[0]] + inside, ItemsText(p.value.items), p.rest);
    } else {
      First(r);
      Regroup([s[0]], inside, [r[0]] + r[1..]);
      Regroup([s[0]] + inside, [r[0]], r[1..]);
    }
  }

  lemma KeySound(s: string, before: set<Codes>)
    requires ParseKey(s, before).Parsed?
    ensures var p := ParseKey(s, before); s == Quoted(p.value.raw) + p.rest && NameOk(p.value) && p.value.key !in before
  {
    LexStringSound(s[1..]);
  }

  lemma {:induction false} MemberPieces(m: Member, rest: string)
    ensures MemberText(m) + rest == Quoted(m.name.raw) + (m.w1 + ([':'] + (m.w2 + (Text(m.value) + (m.w3 + rest)))))
  {
    RegroupAll(Quoted(m.name.raw), m.w1, [':'], m.w2, Text(m.value) + (m.w3 + rest));
    Regroup(Quoted(m.name.raw) + m.w1 + [':'] + m.w2, Text(m.value), m.w3 + rest);
    assert Quoted(m.name.raw) + m.w1 + [':'] + m.w2 + Text(m.value) + (m.w3 + rest) == MemberText(m) + rest;
  }

  lemma {:induction false} MemberSound(s: string, before: set<Codes>)
    requires ParseMember(s, before).Parsed?
    ensures var p := ParseMember(s, before);
      s == MemberText(p.value) + p.rest && MemberOk(p.value) && p.value.name.key !in before
    decreases |s|, 1
  {
    var p := ParseMember(s, before);
    KeySound(s, before);
    var r0 := ParseKey(s, before).rest;
    SkipSplits(r0);
    var r1 := SkipSpaces(r0);
    First(r1);
    SkipSplits(r1[1..]);
    var r2 := SkipSpaces(r1[1..]);
    NodeSound(r2);
    SkipSplits(ParseNode(r2).rest);
    MemberPieces(p.value, p.rest);
  }

  lemma {:induction false} MembersSound(s: string, before: set<Codes>)
    requires ParseMembers(s, before).Parsed?
    ensures var p := ParseMembers(s, before); s == MembersText(p.value) + p.rest && MembersOk(p.value, before)
    decreases |s|, 2
  {
    var p := ParseMembers(s, before);
    MemberSound(s, before);
    var (member, r) := ParseMember(s, before).Extract();
    First(r);
    if r[0] == ',' {
      SkipSplits(r[1..]);
      MembersSound(SkipSpaces(r[1..]), before + {member.name.key});
      RegroupAll(MemberText(member), [','], p.value.w4, MembersText(p.value.rest), p.rest);
    } else {
      Regroup(MemberText(member), ['}'], r[1..]);
    }
  }

  lemma {:induction false} ItemSound(s: string)
    requires ParseItem(s).Parsed?
    ensures var p := ParseItem(s); s == ItemText(p.value) + p.rest && NodeOk(p.value.value) && Spaces(p.value.w1)
    decreases |s|, 1
  {
    var p := ParseItem(s);
    NodeSound(s);
    SkipSplits(ParseNode(s).rest);
    assert Text(p.value.value) + (p.value.w1 + p.rest) == ItemText(p.value) + p.rest;
  }

  lemma {:induction false} ItemsSound(s: string)
    requires ParseItems(s).Parsed?
    ensures var p := ParseItems(s); s == ItemsText(p.value) + p.rest && ItemsOk(p.value)
    decreases |s|, 2
  {
    var p := ParseItems(s);
    ItemSound(s);
    var (item, r) := ParseItem(s).Extract();
    First(r);
    if r[0] == ',' {
      SkipSplits(r[1..]);
      ItemsSound(SkipSpaces(r[1..]));
      RegroupAll(ItemText(item), [','], p.value.w2, ItemsText(p.value.rest), p.rest);
    } else {
      Regroup(ItemText(item), [']'], r[1..]);
    }
  }

  // ----- complete: the text of a well-formed tree is parsed back to it

  lemma {:induction false} NodeComplete(n: Node, rest: string)
    requires NodeOk(n) && Delimited(rest)
    ensures ParseNode(Text(n) + rest) == Parsed(n, rest)
    decreases n
  {
    hide ParseMembers, ParseItems, MembersText, ItemsText, LexScalar;
    match n
    case Leaf(token) =>
      TextStarts(n);
      LexScalarComplete(token, rest);
    case EmptyObject(inside) => AfterBracket('{', inside, ['}'], rest);
    case EmptyArray(inside) => AfterBracket('[', inside, [']'], rest);
    case Object(inside, members) =>
      MembersStart(members, {});
      MembersComplete(members, {}, rest);
      AfterBracket('{', inside, MembersText(members), rest);
    case Array(inside, items) =>
      ItemsStart(items);
      ItemsComplete(items, rest);
      AfterBracket('[', inside, ItemsText(items), rest);
  }

  /** What the parser sees after an opening bracket and its white space. */
  lemma AfterBracket(bracket: char, inside: string, body: string, rest: string)
    requires Spaces(inside) && body != "" && !IsSpace(body[0])
    ensures var s := ([bracket] + inside + body) + rest;
      s[0] == bracket && Skipped(s[1..]) == inside && SkipSpaces(s[1..]) == body + rest
  {
    assert (([bracket] + inside + body) + rest)[1..] == inside + (body + rest);
    SkipOver(inside, body + rest);
  }

  lemma {:induction false} ItemsStart(s: Items)
    requires ItemsOk(s)
    ensures ItemsText(s) != "" && !IsSpace(ItemsText(s)[0]) && ItemsText(s)[0] != ']'
  {
    TextStarts(s.item.value);
  }

  lemma {:induction false} MembersStart(m: Members, before: set<Codes>)
    requires MembersOk(m, before)
    ensures MembersText(m) != "" && MembersText(m)[0] == '"'
  {
  }

  lemma {:induction false} KeyComplete(name: Name, rest: string, before: set<Codes>)
    requires NameOk(name) && name.key !in before
    ensures ParseKey(Quoted(name.raw) + rest, before) == Parsed(name, rest)
  {
    assert (Quoted(name.raw) + rest)[1..] == name.raw + ['"'] + rest;
    LexStringComplete(name.raw, rest);
  }

  lemma {:induction false} MemberComplete(m: Member, before: set<Codes>, next: string)
    requires MemberOk(m) && m.name.key !in before && next != "" && (next[0] == ',' || next[0] == '}')
    ensures ParseMember(MemberText(m) + next, before) == Parsed(m, next)
    decreases m
  {
    var r3 := m.w3 + next;
    var r2 := Text(m.value) + r3;
    var r1 := [':'] + (m.w2 + r2);
    var r0 := m.w1 + r1;
    MemberPieces(m, next);
    KeyComplete(m.name, r0, before);
    SkipOver(m.w1, r1);
    assert r1[1..] == m.w2 + r2;
    TextStarts(m.value);
    SkipOver(m.w2, r2);
    assert Delimited(r3);
    NodeComplete(m.value, r3);
    SkipOver(m.w3, next);
  }

  lemma {:induction false} MembersComplete(m: Members, before: set<Codes>, rest: string)
    requires MembersOk(m, before)
    ensures ParseMembers(MembersText(m) + rest, before) == Parsed(m, rest)
    decreases m
  {
    match m
    case LastMember(member) =>
      var next := ['}'] + rest;
      assert MembersText(m) + rest == MemberText(member) + next;
      MemberComplete(member, before, next);
    case MoreMembers(member, w4, others) =>
      var after := MembersText(others) + rest;
      var next := [','] + (w4 + after);
      assert MembersText(m) + rest == MemberText(member) + next;
      MemberComplete(member, before, next);
      assert next[1..] == w4 + after;
      MembersStart(others, before + {member.name.key});
      SkipOver(w4, after);
      MembersComplete(others, before + {member.name.key}, rest);
  }

  lemma {:induction false} ItemComplete(i: Item, next: string)
    requires NodeOk(i.value) && Spaces(i.w1) && next != "" && (next[0] == ',' || next[0] == ']')
    ensures ParseItem(ItemText(i) + next) == Parsed(i, next)
    decreases i
  {
    assert ItemText(i) + next == Text(i.value) + (i.w1 + next);
    NodeComplete(i.value, i.w1 + next);
    SkipOver(i.w1, next);
  }

  lemma {:induction false} ItemsComplete(t: Items, rest: string)
    requires ItemsOk(t)
    ensures ParseItems(ItemsText(t) + rest) == Parsed(t, rest)
    decreases t
  {
    match t
    case LastItem(item) =>
      var next := [']'] + rest;
      assert ItemsText(t) + rest == ItemText(item) + next;
      ItemComplete(item, next);
    case MoreItems(item, w2, others) =>
      var after := ItemsText(others) + rest;
      var next := [','] + (w2 + after);
      assert ItemsText(t) + rest == ItemText(item) + next;
      ItemComplete(item, next);
      assert next[1..] == w2 + after;
      ItemsStart(others);
      SkipOver(w2, after);
      ItemsComplete(others, rest);
  }

  /** The parser accepts exactly the texts of well-formed documents, and returns the document. */
  lemma ParsesExactly(s: string, d: Document)
    ensures ParseDocument(s) == Some(d) <==> DocumentOk(d) && s == DocumentText(d)
  {
    if ParseDocument(s) == Some(d) {
      DocumentSound(s, d);
    }
    if DocumentOk(d) && s == DocumentText(d) {
      DocumentComplete(d);
    }
  }

  lemma DocumentSound(s: string, d: Document)
    requires ParseDocument(s) == Some(d)
    ensures DocumentOk(d) && s == DocumentText(d)
  {
    SkipSplits(s);
    NodeSound(SkipSpaces(s));
    SkipSplits(d.after);
    assert Skipped(d.after) == d.after;
    assert d.before + (Text(d.root) + d.after) == DocumentText(d);
  }

  lemma DocumentComplete(d: Document)
    requires DocumentOk(d)
    ensures ParseDocument(DocumentText(d)) == Some(d)
  {
    TextStarts(d.root);
    assert DocumentText(d) == d.before + (Text(d.root) + d.after);
    SkipOver(d.before, Text(d.root) + d.after);
    assert Delimited(d.after);
    NodeComplete(d.root, d.after);
    SkipOver(d.after, "");
    assert d.after + "" == d.after;
  }
}
