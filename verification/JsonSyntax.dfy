/**
 JSON text with every character accounted for (RFC 8259, sections 2 to 7): a tree that keeps the
 white space and the scalar tokens, its text, and the parser. Like the library's decoder it also takes
 NaN, Infinity and -Infinity. A string token keeps its text between the quotes, escapes included.
 */
module JsonSyntax {
  import opened Basics
  import opened Decimal
  import opened JsonStrings

  datatype Word = True | False | Null | NotANumber | Infinity | MinusInfinity

  /** A float keeps its fraction and exponent as they are written. */
  datatype Scalar =
    | Integer(negative: bool, digits: nat)
    | Float(negative: bool, digits: nat, tail: string)
    | Str(raw: string)
    | Literal(word: Word)

  datatype Node =
    | Leaf(token: Scalar)
    | EmptyObject(inside: string)
    | Object(inside: string, members: Members)
    | EmptyArray(inside: string)
    | Array(inside: string, items: Items)

  /** A name as it is written and as it reads. */
  datatype Name = Name(raw: string, key: Codes)

  /** A name, the white space around its colon, its value, and the white space after it. */
  datatype Member = Member(name: Name, w1: string, w2: string, value: Node, w3: string)

  datatype Members = LastMember(member: Member) | MoreMembers(member: Member, w4: string, rest: Members)

  datatype Item = Item(value: Node, w1: string)

  datatype Items = LastItem(item: Item) | MoreItems(item: Item, w2: string, rest: Items)

  // ----- text

  function WordText(w: Word): (text: string)
    ensures text != ""
  {
    match w
    case True => "true"
    case False => "false"
    case Null => "null"
    case NotANumber => "NaN"
    case Infinity => "Infinity"
    case MinusInfinity => "-Infinity"
  }

  function TokenText(t: Scalar): string {
    match t
    case Integer(negative, digits) => (if negative then "-" else "") + Render(digits)
    case Float(negative, digits, tail) => (if negative then "-" else "") + Render(digits) + tail
    case Str(raw) => Quoted(raw)
    case Literal(word) => WordText(word)
  }

  function Quoted(s: string): string { ['"'] + s + ['"'] }

  function Text(n: Node): string {
    match n
    case Leaf(token) => TokenText(token)
    case EmptyObject(inside) => ['{'] + inside + ['}']
    case Object(inside, members) => ['{'] + inside + MembersText(members)
    case EmptyArray(inside) => ['['] + inside + [']']
    case Array(inside, items) => ['['] + inside + ItemsText(items)
  }

  function MemberText(m: Member): string {
    Quoted(m.name.raw) + m.w1 + [':'] + m.w2 + Text(m.value) + m.w3
  }

  function MembersText(m: Members): string {
    match m
    case LastMember(member) => MemberText(member) + ['}']
    case MoreMembers(member, w4, rest) => MemberText(member) + [','] + w4 + MembersText(rest)
  }

  function ItemText(i: Item): string { Text(i.value) + i.w1 }

  function ItemsText(s: Items): string {
    match s
    case LastItem(item) => ItemText(item) + [']']
    case MoreItems(item, w2, rest) => ItemText(item) + [','] + w2 + ItemsText(rest)
  }

  // ----- which trees are trees of accepted text

  predicate IsSpace(c: char) { c == ' ' || c == '\n' || c == '\r' || c == '\t' }

  predicate Spaces(s: string) { forall i :: 0 <= i < |s| ==> IsSpace(s[i]) }

  predicate TokenOk(t: Scalar) {
    && (t.Str? ==> RawText(t.raw))
    && (t.Float? ==> t.tail != "" && TailOf(t.tail) == t.tail)
  }

  predicate NameOk(n: Name) { RawText(n.raw) && n.key == Decoded(n.raw) }

  predicate NodeOk(n: Node) {
    match n
    case Leaf(token) => TokenOk(token)
    case EmptyObject(inside) => Spaces(inside)
    case Object(inside, members) => Spaces(inside) && MembersOk(members, {})
    case EmptyArray(inside) => Spaces(inside)
    case Array(inside, items) => Spaces(inside) && ItemsOk(items)
  }

  predicate MemberOk(m: Member) {
    NameOk(m.name) && Spaces(m.w1) && Spaces(m.w2) && NodeOk(m.value) && Spaces(m.w3)
  }

  /** Keys are distinct among themselves and from those before. */
  predicate MembersOk(m: Members, before: set<Codes>) {
    && MemberOk(m.member) && m.member.name.key !in before
    && (m.MoreMembers? ==> Spaces(m.w4) && MembersOk(m.rest, before + {m.member.name.key}))
  }

  predicate ItemsOk(s: Items) {
    && NodeOk(s.item.value) && Spaces(s.item.w1)
    && (s.MoreItems? ==> Spaces(s.w2) && ItemsOk(s.rest))
  }

  // ----- the parser, on the text still ahead

  function SkipSpaces(s: string): (r: string)
    ensures |r| <= |s|
  {
    if s != "" && IsSpace(s[0]) then SkipSpaces(s[1..]) else s
  }

  /** What `SkipSpaces` went over. */
  function Skipped(s: string): string { s[..|s| - |SkipSpaces(s)|] }

  datatype Parsed<+T> = Failed | Parsed(value: T, rest: string) {
    predicate IsFailure() { Failed? }
    function PropagateFailure<U>(): Parsed<U> requires Failed? { Failed }
    function Extract(): (T, string) requires Parsed? { (value, rest) }
  }

  function DigitsOf(s: string): (d: string)
    ensures |d| <= |s| && d == s[..|d|] && AllDigits(d)
  {
    if s != "" && IsDigit(s[0]) then [s[0]] + DigitsOf(s[1..]) else ""
  }

  /** The longest exponent at the start of the text, if any. */
  function ExponentOf(s: string): (e: string)
    ensures |e| <= |s| && e == s[..|e|]
  {
    if s == "" || (s[0] != 'e' && s[0] != 'E') then ""
    else
      var sign := if |s| > 1 && (s[1] == '+' || s[1] == '-') then 2 else 1;
      var d := DigitsOf(s[sign..]);
      if d == "" then "" else s[..sign + |d|]
  }

  /** The longest fraction at the start of the text, if any. */
  function FractionOf(s: string): (f: string)
    ensures |f| <= |s| && f == s[..|f|]
  {
    if s == "" || s[0] != '.' || DigitsOf(s[1..]) == "" then "" else s[..1 + |DigitsOf(s[1..])|]
  }

  /** What makes a number a float: a fraction, an exponent or both. */
  function TailOf(s: string): (t: string)
    ensures |t| <= |s| && t == s[..|t|]
  {
    var f := FractionOf(s);
    f + ExponentOf(s[|f|..])
  }

  function LexNumber(s: string, negative: bool): (p: Parsed<Scalar>)
    ensures p.Parsed? ==> |p.rest| < |s|
  {
    var d := DigitsOf(s);
    if !IsNumeral(d) then Failed
    else
      var rest := s[|d|..];
      var tail := TailOf(rest);
      Parsed(if tail == "" then Integer(negative, Value(d)) else Float(negative, Value(d), tail), rest[|tail|..])
  }

  function LexNumeric(s: string): (p: Parsed<Scalar>)
    requires s != ""
    ensures p.Parsed? ==> |p.rest| < |s|
  {
    if s[0] == '-' then LexNumber(s[1..], true) else LexNumber(s, false)
  }

  const WORDS: seq<Word> := [True, False, Null, NotANumber, Infinity, MinusInfinity]

  /** The word at the start of the text, if any. */
  function WordAt(words: seq<Word>, s: string): (w: Option<Word>)
    ensures w.Some? ==> WordText(w.value) <= s
  {
    if words == [] then None else if WordText(words[0]) <= s then Some(words[0]) else WordAt(words[1..], s)
  }

  function LexScalar(s: string): (p: Parsed<Scalar>)
    ensures p.Parsed? ==> |p.rest| < |s|
  {
    if s == "" then Failed
    else if s[0] == '"' then
      var l := LexString(s[1..]);
      if l.Unclosed? then Failed else Parsed(Str(l.text), l.rest)
    else
      match WordAt(WORDS, s)
      case Some(word) => Parsed(Literal(word), s[|WordText(word)|..])
      case None => LexNumeric(s)
  }

  function ParseNode(s: string): (p: Parsed<Node>)
    ensures p.Parsed? ==> |p.rest| < |s|
    decreases |s|, 0
  {
    if s == "" then Failed
    else if s[0] == '{' then
      var r := SkipSpaces(s[1..]);
      if r != "" && r[0] == '}' then Parsed(EmptyObject(Skipped(s[1..])), r[1..])
      else
        var (members, rest) :- ParseMembers(r, {});
        Parsed(Object(Skipped(s[1..]), members), rest)
    else if s[0] == '[' then
      var r := SkipSpaces(s[1..]);
      if r != "" && r[0] == ']' then Parsed(EmptyArray(Skipped(s[1..])), r[1..])
      else
        var (items, rest) :- ParseItems(r);
        Parsed(Array(Skipped(s[1..]), items), rest)
    else
      var (token, rest) :- LexScalar(s);
      Parsed(Leaf(token), rest)
  }

  /** A member name, which must be a string that reads as a new name. */
  function ParseKey(s: string, before: set<Codes>): (p: Parsed<Name>)
    ensures p.Parsed? ==> |p.rest| < |s|
  {
    if s == "" || s[0] != '"' then Failed
    else
      var l := LexString(s[1..]);
      if l.Unclosed? || Decoded(l.text) in before then Failed else Parsed(Name(l.text, Decoded(l.text)), l.rest)
  }

  function ParseMember(s: string, before: set<Codes>): (p: Parsed<Member>)
    ensures p.Parsed? ==> |p.rest| < |s|
    decreases |s|, 1
  {
    var (name, r0) :- ParseKey(s, before);
    var r1 := SkipSpaces(r0);
    if r1 == "" || r1[0] != ':' then Failed
    else
      var (value, r3) :- ParseNode(SkipSpaces(r1[1..]));
      Parsed(Member(name, Skipped(r0), Skipped(r1[1..]), value, Skipped(r3)), SkipSpaces(r3))
  }

  function ParseMembers(s: string, before: set<Codes>): (p: Parsed<Members>)
    ensures p.Parsed? ==> |p.rest| < |s|
    decreases |s|, 2
  {
    var (member, r) :- ParseMember(s, before);
    if r == "" then Failed
    else if r[0] == '}' then Parsed(LastMember(member), r[1..])
    else if r[0] != ',' then Failed
    else
      var (others, rest) :- ParseMembers(SkipSpaces(r[1..]), before + {member.name.key});
      Parsed(MoreMembers(member, Skipped(r[1..]), others), rest)
  }

  function ParseItem(s: string): (p: Parsed<Item>)
    ensures p.Parsed? ==> |p.rest| < |s|
    decreases |s|, 1
  {
    var (value, r) :- ParseNode(s);
    Parsed(Item(value, Skipped(r)), SkipSpaces(r))
  }

  function ParseItems(s: string): (p: Parsed<Items>)
    ensures p.Parsed? ==> |p.rest| < |s|
    decreases |s|, 2
  {
    var (item, r) :- ParseItem(s);
    if r == "" then Failed
    else if r[0] == ']' then Parsed(LastItem(item), r[1..])
    else if r[0] != ',' then Failed
    else
      var (others, rest) :- ParseItems(SkipSpaces(r[1..]));
      Parsed(MoreItems(item, Skipped(r[1..]), others), rest)
  }

  /** A whole document: white space, one value, white space. */
  datatype Document = Document(before: string, root: Node, after: string)

  function DocumentText(d: Document): string { d.before + Text(d.root) + d.after }

  predicate DocumentOk(d: Document) { Spaces(d.before) && NodeOk(d.root) && Spaces(d.after) }

  function ParseDocument(s: string): Option<Document> {
    var p := ParseNode(SkipSpaces(s));
    if p.Parsed? && SkipSpaces(p.rest) == "" then Some(Document(Skipped(s), p.value, p.rest)) else None
  }
}
