/**
 The payload's text is one JSON object with the payload's fields in their order, and its size is the number of bytes of
 the text in UTF-8 (RFC 3629, section 3).
 */
module PayloadReading {
  import opened Basics
  import opened Decimal
  import opened JsonStrings
  import opened JsonSyntax
  import opened JsonRoundTrip
  import opened JsonPaths
  import Payload = EventPayload

  // ----- bytes

  /** The bytes of one character: none below 128 but for ASCII, and the first says how many there are. */
  function Bytes(c: char): seq<nat> {
    var n := c as nat;
    if n <= 0x7F then [n]
    else if n <= 0x7FF then [0xC0 + n / 64, 0x80 + n % 64]
    else if n <= 0xFFFF then [0xE0 + n / 4096, 0x80 + n / 64 % 64, 0x80 + n % 64]
    else [0xF0 + n / 262144, 0x80 + n / 4096 % 64, 0x80 + n / 64 % 64, 0x80 + n % 64]
  }

  function Utf8(s: string): seq<nat> { if s == "" then [] else Bytes(s[0]) + Utf8(s[1..]) }

  /** The character that some bytes begin with. */
  function CodeOf(b: seq<nat>): nat {
    if |b| >= 1 && b[0] < 0x80 then b[0]
    else if |b| >= 2 && 0xC0 <= b[0] < 0xE0 then (b[0] - 0xC0) * 64 + b[1] % 64
    else if |b| >= 3 && 0xE0 <= b[0] < 0xF0 then (b[0] - 0xE0) * 4096 + b[1] % 64 * 64 + b[2] % 64
    else if |b| >= 4 && 0xF0 <= b[0] then (b[0] - 0xF0) * 262144 + b[1] % 64 * 4096 + b[2] % 64 * 64 + b[3] % 64
    else 0
  }

  lemma Digits64(n: nat)
    ensures n == n / 64 * 64 + n % 64 && n / 64 == n / 4096 * 64 + n / 64 % 64 && n / 4096 == n / 262144 * 64 + n / 4096 % 64
  {
  }

  /** The bytes of a character begin with that character whatever follows. */
  lemma BytesRead(c: char, rest: seq<nat>)
    ensures CodeOf(Bytes(c) + rest) == c as nat
  {
    hide CodeOf;
    var n := c as nat;
    Digits64(n);
    LeadByte(n);
    if n > 0xFFFF {
      FourRead(n / 262144, n / 4096 % 64, n / 64 % 64, n % 64, rest);
    } else if n > 0x7FF {
      ThreeRead(n / 4096, n / 64 % 64, n % 64, rest);
    } else if n > 0x7F {
      TwoRead(n / 64, n % 64, rest);
    } else {
      assert CodeOf([n] + rest) == n by { OneRead(n, rest); }
    }
  }

  lemma OneRead(n: nat, rest: seq<nat>)
    requires n < 0x80
    ensures CodeOf([n] + rest) == n
  {
  }

  lemma TwoRead(a: nat, b: nat, rest: seq<nat>)
    requires a < 32 && b < 64
    ensures CodeOf([0xC0 + a, 0x80 + b] + rest) == a * 64 + b
  {
    assert (0x80 + b) % 64 == b;
  }

  lemma ThreeRead(a: nat, b: nat, c: nat, rest: seq<nat>)
    requires a < 16 && b < 64 && c < 64
    ensures CodeOf([0xE0 + a, 0x80 + b, 0x80 + c] + rest) == a * 4096 + b * 64 + c
  {
    assert (0x80 + b) % 64 == b && (0x80 + c) % 64 == c;
  }

  lemma FourRead(a: nat, b: nat, c: nat, d: nat, rest: seq<nat>)
    requires b < 64 && c < 64 && d < 64
    ensures CodeOf([0xF0 + a, 0x80 + b, 0x80 + c, 0x80 + d] + rest) == a * 262144 + b * 4096 + c * 64 + d
  {
    assert (0x80 + b) % 64 == b && (0x80 + c) % 64 == c && (0x80 + d) % 64 == d;
  }

  lemma LeadByte(n: nat)
    ensures n <= 0x7FF ==> n / 64 < 32
    ensures n <= 0xFFFF ==> n / 4096 < 16
  {
  }

  lemma {:induction false} SizeIsBytes(s: string)
    ensures Payload.Utf8Size(s) == |Utf8(s)|
  {
    if s != "" {
      SizeIsBytes(s[1..]);
      assert s == [s[0]] + s[1..] && [s[0]][..0] == "";
      Payload.Utf8Concat([s[0]], s[1..]);
      assert Payload.Utf8Size([s[0]]) == Payload.Utf8SizeOf(s[0]);
    }
  }

  // ----- the object

  /** A field that reads as this text. */
  ghost predicate IsText(f: Field, name: string, value: string) {
    f.name == CodesOf(name) && f.value.Atom? && f.value.token.Str? && Decoded(f.value.token.raw) == CodesOf(value)
  }

  /** A field that is this integer. */
  ghost predicate IsInteger(f: Field, name: string, n: int) {
    && f.name == CodesOf(name) && f.value.Atom? && f.value.token.Integer?
    && n == if f.value.token.negative then 0 - f.value.token.digits else f.value.token.digits
  }

  /** The object that a payload is. */
  ghost predicate IsPayload(d: Data, p: Payload.EventPayload) {
    && d.Obj? && |d.fields| == 9 && IsInteger(d.fields[0], "schemaVersion", 1)
    && IsText(d.fields[1], "eventKey", p.eventKey) && IsText(d.fields[2], "kind", p.kind) && IsText(d.fields[3], "source", p.source)
    && IsInteger(d.fields[4], "sourceTimestampMs", p.sourceTimestampMs) && IsInteger(d.fields[5], "observedAtMs", p.observedAtMs)
    && IsText(d.fields[6], "title", p.title) && IsText(d.fields[7], "body", p.body) && IsText(d.fields[8], "url", "/")
  }

  function MemberOf(name: string, token: Scalar): Member { Member(Name(name, CodesOf(name)), "", "", Leaf(token), "") }

  function StringOf(s: string): Scalar { Str(Escape(s)) }

  function NumberOf(n: int): Scalar { if n < 0 then Integer(true, -n) else Integer(false, n) }

  /** Members without white space. */
  function Packed(names: seq<string>, tokens: seq<Scalar>): Members
    requires |names| == |tokens| > 0
  {
    var m := MemberOf(names[0], tokens[0]);
    if |names| == 1 then LastMember(m) else MoreMembers(m, "", Packed(names[1..], tokens[1..]))
  }

  /** `"name":token` for each member, with commas between. */
  function Listed(names: seq<string>, tokens: seq<Scalar>): string
    requires |names| == |tokens| > 0
  {
    ['"'] + names[0] + "\":" + TokenText(tokens[0])
    + if |names| == 1 then "}" else "," + Listed(names[1..], tokens[1..])
  }

  lemma {:induction false} PackedText(names: seq<string>, tokens: seq<Scalar>)
    requires |names| == |tokens| > 0
    ensures MembersText(Packed(names, tokens)) == Listed(names, tokens)
    decreases |names|
  {
    hide MemberText, TokenText, MemberOf;
    MemberPlain(names[0], tokens[0]);
    if |names| > 1 {
      PackedText(names[1..], tokens[1..]);
      CommaAfter(MemberText(MemberOf(names[0], tokens[0])), Listed(names[1..], tokens[1..]));
    }
  }

  lemma CommaAfter(head: string, rest: string)
    ensures head + [','] + "" + rest == head + ("," + rest)
  {
    assert head + [','] + "" == head + ",";
    Regroup(head, ",", rest);
  }

  lemma MemberPlain(name: string, token: Scalar)
    ensures MemberText(MemberOf(name, token)) == ['"'] + name + "\":" + TokenText(token)
  {
    hide TokenText;
    var m := MemberOf(name, token);
    assert Quoted(name) + "" == Quoted(name) && [':'] == ":" && Quoted(name) + [':'] == ['"'] + name + "\":";
    assert Quoted(name) + [':'] + "" == Quoted(name) + [':'];
  }

  ghost predicate PlainNames(names: seq<string>) {
    && (forall i :: 0 <= i < |names| ==> forall k :: 0 <= k < |names[i]| ==> Plain(names[i][k]))
    && (forall i, j :: 0 <= i < j < |names| ==> names[i] != names[j])
  }

  lemma {:induction false} PlainEscape(s: string)
    requires forall k :: 0 <= k < |s| ==> Plain(s[k])
    ensures Escape(s) == s
  {
    hide EscapeChar;
    if s != "" {
      PlainEscape(s[..|s| - 1]);
      PlainChar(s[|s| - 1]);
      LastOff(s);
    }
  }

  lemma PlainChar(c: char)
    requires Plain(c)
    ensures EscapeChar(c) == [c]
  {
  }

  lemma LastOff(s: string)
    requires s != ""
    ensures s == s[..|s| - 1] + [s[|s| - 1]]
  {
  }

  lemma CodesApart(s: string, t: string)
    requires CodesOf(s) == CodesOf(t)
    ensures s == t
  {
    assert forall k :: 0 <= k < |s| ==> CodesOf(s)[k] == s[k] as nat && CodesOf(t)[k] == t[k] as nat;
  }

  lemma NameIsOk(name: string)
    requires forall k :: 0 <= k < |name| ==> Plain(name[k])
    ensures NameOk(Name(name, CodesOf(name)))
  {
    PlainEscape(name);
    EscapeReads(name);
  }

  lemma {:induction false} PackedOk(names: seq<string>, tokens: seq<Scalar>, before: set<Codes>)
    requires |names| == |tokens| > 0 && PlainNames(names) && forall t :: t in tokens ==> TokenOk(t)
    requires forall i :: 0 <= i < |names| ==> CodesOf(names[i]) !in before
    ensures MembersOk(Packed(names, tokens), before)
    decreases |names|
  {
    hide TokenOk, NameOk;
    NameIsOk(names[0]);
    assert tokens[0] in tokens;
    assert MemberOk(MemberOf(names[0], tokens[0]));
    if |names| > 1 {
      RestPlain(names);
      forall i | 0 <= i < |names[1..]| ensures CodesOf(names[1..][i]) !in before + {CodesOf(names[0])} {
        if CodesOf(names[i + 1]) == CodesOf(names[0]) {
          CodesApart(names[i + 1], names[0]);
        }
      }
      PackedOk(names[1..], tokens[1..], before + {CodesOf(names[0])});
    }
  }

  lemma RestPlain(names: seq<string>)
    requires PlainNames(names) && names != []
    ensures PlainNames(names[1..])
  {
  }

  lemma {:induction false} PackedData(names: seq<string>, tokens: seq<Scalar>)
    requires |names| == |tokens| > 0
    ensures var fields := MembersData(Packed(names, tokens));
      |fields| == |names| && forall i :: 0 <= i < |names| ==> fields[i] == Field(CodesOf(names[i]), Atom(tokens[i]))
    decreases |names|
  {
    if |names| > 1 {
      PackedData(names[1..], tokens[1..]);
    }
  }

  const NAMES: seq<string> :=
    ["schemaVersion", "eventKey", "kind", "source", "sourceTimestampMs", "observedAtMs", "title", "body", "url"]

  function TokensOf(p: Payload.EventPayload): seq<Scalar> {
    [Integer(false, 1), StringOf(p.eventKey), StringOf(p.kind), StringOf(p.source), NumberOf(p.sourceTimestampMs),
     NumberOf(p.observedAtMs), StringOf(p.title), StringOf(p.body), StringOf("/")]
  }

  lemma NamesPlain()
    ensures PlainNames(NAMES)
  {
    forall i, k | 0 <= i < |NAMES| && 0 <= k < |NAMES[i]| ensures Plain(NAMES[i][k]) {
    }
    assert NAMES[2][0] != NAMES[7][0];
  }

  lemma TokensPlain(p: Payload.EventPayload)
    ensures forall t :: t in TokensOf(p) ==> TokenOk(t)
  {
    hide Escape, Decoded, CodesOf, RawText;
    EscapeReads(p.eventKey);
    EscapeReads(p.kind);
    EscapeReads(p.source);
    EscapeReads(p.title);
    EscapeReads(p.body);
    EscapeReads("/");
  }

  // ----- the text, field by field from the end

  /** A text field of the payload, ahead of what comes after its closing quote. */
  lemma TextStep(lead: string, name: string, v: string, rest: string)
    ensures (lead + (['"'] + name + "\":\"")) + v + ("\"," + rest) == lead + (['"'] + name + "\":" + Quoted(v) + ("," + rest))
  {
    assert "\"," + rest == ['"'] + ("," + rest);
    assert ['"'] + name + "\":\"" == ['"'] + name + "\":" + ['"'];
    Regroup(lead, ['"'] + name + "\":" + ['"'], v);
    Regroup(['"'] + name + "\":", ['"'], v);
    Regroup(lead, ['"'] + name + "\":" + (['"'] + v), ['"'] + ("," + rest));
    Regroup(['"'] + name + "\":", ['"'] + v, ['"'] + ("," + rest));
    Regroup(['"'] + v, ['"'], "," + rest);
    Regroup(['"'] + name + "\":", Quoted(v), "," + rest);
  }

  /** A number, ahead of what comes after it. */
  lemma NumberStep(lead: string, name: string, v: string, rest: string)
    ensures (lead + (['"'] + name + "\":")) + v + ("," + rest) == lead + (['"'] + name + "\":" + v + ("," + rest))
  {
    Regroup(lead, ['"'] + name + "\":", v);
    Regroup(lead, ['"'] + name + "\":" + v, "," + rest);
  }

  lemma NumberText(n: int)
    ensures TokenText(NumberOf(n)) == Payload.Integer(n)
  {
    assert "" + Render(if n < 0 then -n else n) == Render(if n < 0 then -n else n);
  }

  lemma {:induction false} StringText(s: string)
    ensures TokenText(StringOf(s)) == Quoted(Escape(s))
  {
  }

  /** What the payload's own text is from its field `i` on. */
  function TextFrom(p: Payload.EventPayload, i: nat): string
    requires i <= 8
  {
    Payload.Text(Payload.Fields(p)[i..])
  }

  function ListedFrom(p: Payload.EventPayload, i: nat): string
    requires i < 9
  {
    Listed(NAMES[i..], TokensOf(p)[i..])
  }

  lemma OneField(p: Payload.EventPayload, i: nat)
    requires i < 8
    ensures TextFrom(p, i) == Payload.Fields(p)[i].name + Payload.Fields(p)[i].value + TextFrom(p, i + 1)
    ensures TextFrom(p, 8) == ""
  {
    hide Payload.Fields;
    FieldCount(p);
    var f := Payload.Fields(p);
    assert f[i..][1..] == f[i + 1..] && f[i..][0] == f[i];
  }

  lemma FieldCount(p: Payload.EventPayload)
    ensures |Payload.Fields(p)| == 8
  {
  }

  lemma OneListed(p: Payload.EventPayload, i: nat)
    requires i < 9
    ensures ListedFrom(p, i) ==
      ['"'] + NAMES[i] + "\":" + TokenText(TokensOf(p)[i]) + if i == 8 then "}" else "," + ListedFrom(p, i + 1)
  {
    hide TokensOf, TokenText;
    TokenCount(p);
    var names, tokens := NAMES[i..], TokensOf(p)[i..];
    assert names[0] == NAMES[i] && tokens[0] == TokensOf(p)[i];
    assert names[1..] == NAMES[i + 1..] && tokens[1..] == TokensOf(p)[i + 1..];
  }

  lemma TokenCount(p: Payload.EventPayload)
    ensures |TokensOf(p)| == 9
  {
  }

  /** The payload's field `i` is text, and member `i + 1` of the object. */
  lemma {:induction false} TextField(p: Payload.EventPayload, i: nat, lead: string, v: string)
    requires i < 7 && TokensOf(p)[i + 1] == StringOf(v) && TextFrom(p, i + 1) == "\"," + ListedFrom(p, i + 2)
    requires Payload.Fields(p)[i] == Payload.Field(lead + (['"'] + NAMES[i + 1] + "\":\""), Escape(v))
    ensures TextFrom(p, i) == lead + ListedFrom(p, i + 1)
  {
    hide TextFrom, ListedFrom, TokensOf, Payload.Fields;
    OneField(p, i);
    OneListed(p, i + 1);
    StringText(v);
    TextStep(lead, NAMES[i + 1], Escape(v), ListedFrom(p, i + 2));
  }

  /** The payload's field `i` is a number, and member `i + 1` of the object. */
  lemma NumberField(p: Payload.EventPayload, i: nat, lead: string, n: int)
    requires i < 7 && TokensOf(p)[i + 1] == NumberOf(n) && TextFrom(p, i + 1) == "," + ListedFrom(p, i + 2)
    requires Payload.Fields(p)[i] == Payload.Field(lead + (['"'] + NAMES[i + 1] + "\":"), Payload.Integer(n))
    ensures TextFrom(p, i) == lead + ListedFrom(p, i + 1)
  {
    hide TextFrom, ListedFrom, TokensOf, Payload.Fields;
    OneField(p, i);
    OneListed(p, i + 1);
    NumberText(n);
    NumberStep(lead, NAMES[i + 1], Payload.Integer(n), ListedFrom(p, i + 2));
  }

  lemma UrlField(p: Payload.EventPayload)
    ensures TextFrom(p, 7) == "\"," + ListedFrom(p, 8)
  {
    hide TextFrom, ListedFrom, TokensOf;
    OneField(p, 7);
    OneListed(p, 8);
    UrlToken(p);
    assert Payload.Fields(p)[7].name + "" + "" == "\",\"url\":\"/\"}";
    assert ['"'] + "url" + "\":" + "\"/\"" + "}" == "\"url\":\"/\"}";
  }

  lemma UrlToken(p: Payload.EventPayload)
    ensures TokenText(TokensOf(p)[8]) == "\"/\""
  {
    PlainEscape("/");
    StringText("/");
  }

  lemma ShortNames()
    ensures "\"," + (['"'] + "body" + "\":\"") == "\",\"body\":\""
    ensures "," + (['"'] + "title" + "\":\"") == ",\"title\":\""
    ensures "\"," + (['"'] + "source" + "\":\"") == "\",\"source\":\""
    ensures "\"," + (['"'] + "kind" + "\":\"") == "\",\"kind\":\""
  {
  }

  lemma NumberNames()
    ensures "," + (['"'] + "observedAtMs" + "\":") == ",\"observedAtMs\":"
    ensures "\"," + (['"'] + "sourceTimestampMs" + "\":") == "\",\"sourceTimestampMs\":"
  {
  }

  lemma FirstNames()
    ensures "{\"schemaVersion\":1," + (['"'] + "eventKey" + "\":\"") == "{\"schemaVersion\":1,\"eventKey\":\""
  {
  }

  lemma NamesAre()
    ensures NAMES[1] == "eventKey" && NAMES[2] == "kind" && NAMES[3] == "source" && NAMES[4] == "sourceTimestampMs"
    ensures NAMES[5] == "observedAtMs" && NAMES[6] == "title" && NAMES[7] == "body"
  {
  }

  lemma FieldsAre(p: Payload.EventPayload)
    ensures var f := Payload.Fields(p);
      && f[6] == Payload.Field("\"," + (['"'] + NAMES[7] + "\":\""), Escape(p.body))
      && f[5] == Payload.Field("," + (['"'] + NAMES[6] + "\":\""), Escape(p.title))
      && f[4] == Payload.Field("," + (['"'] + NAMES[5] + "\":"), Payload.Integer(p.observedAtMs))
      && f[3] == Payload.Field("\"," + (['"'] + NAMES[4] + "\":"), Payload.Integer(p.sourceTimestampMs))
      && f[2] == Payload.Field("\"," + (['"'] + NAMES[3] + "\":\""), Escape(p.source))
      && f[1] == Payload.Field("\"," + (['"'] + NAMES[2] + "\":\""), Escape(p.kind))
      && f[0] == Payload.Field("{\"schemaVersion\":1," + (['"'] + NAMES[1] + "\":\""), Escape(p.eventKey))
  {
    hide Escape, Payload.Integer, NAMES;
    NamesAre();
    ShortNames();
    NumberNames();
    FirstNames();
  }

  lemma TextIsListed(p: Payload.EventPayload)
    ensures Payload.Json(p) == "{\"schemaVersion\":1," + ListedFrom(p, 1)
  {
    hide Payload.Fields, ListedFrom, TextFrom, Payload.Text, Escape, Payload.Integer, StringOf, NumberOf, Payload.Json;
    FieldsAre(p);
    UrlField(p);
    TextField(p, 6, "\",", p.body);
    TextField(p, 5, ",", p.title);
    NumberField(p, 4, ",", p.observedAtMs);
    NumberField(p, 3, "\",", p.sourceTimestampMs);
    TextField(p, 2, "\",", p.source);
    TextField(p, 1, "\",", p.kind);
    TextField(p, 0, "{\"schemaVersion\":1,", p.eventKey);
    WholeText(p);
  }

  lemma WholeText(p: Payload.EventPayload)
    ensures TextFrom(p, 0) == Payload.Json(p)
  {
    hide Payload.Fields;
    assert Payload.Fields(p)[0..] == Payload.Fields(p);
  }

  function Tree(p: Payload.EventPayload): Document { Document("", Object("", Packed(NAMES, TokensOf(p))), "") }

  lemma TreeText(p: Payload.EventPayload)
    ensures DocumentText(Tree(p)) == Payload.Json(p)
  {
    hide ListedFrom, TokensOf, Packed, Payload.Json, Listed, MembersText, TokenText;
    TokenCount(p);
    TextIsListed(p);
    PackedText(NAMES, TokensOf(p));
    OneListed(p, 0);
    FirstToken(p);
    AllListed(p);
    HeadText(ListedFrom(p, 1));
  }

  lemma HeadText(rest: string)
    ensures "" + (['{'] + "" + (['"'] + "schemaVersion" + "\":" + "1" + ("," + rest))) + "" == "{\"schemaVersion\":1," + rest
  {
    var name := ['"'] + "schemaVersion" + "\":" + "1";
    FirstName();
    Regroup(['{'], name, "," + rest);
    Regroup(['{'] + name, ",", rest);
    assert ['{'] + "" == ['{'];
  }

  lemma FirstName()
    ensures ['{'] + (['"'] + "schemaVersion" + "\":" + "1") + "," == "{\"schemaVersion\":1,"
  {
  }

  lemma FirstToken(p: Payload.EventPayload)
    ensures TokenText(TokensOf(p)[0]) == "1"
  {
    assert Render(1) == "1";
  }

  lemma AllListed(p: Payload.EventPayload)
    ensures |TokensOf(p)| == 9 && ListedFrom(p, 0) == Listed(NAMES, TokensOf(p))
  {
    assert NAMES[0..] == NAMES && TokensOf(p)[0..] == TokensOf(p);
  }

  /** The payload reads back as one object: its nine fields in their order, with their values, and nothing else. */
  lemma PayloadReads(p: Payload.EventPayload)
    ensures exists d :: ParseDocument(Payload.Json(p)) == Some(d) && IsPayload(DataOf(d.root), p)
  {
    hide Payload.Json, ParseDocument, IsPayload, Listed, NAMES;
    TreeText(p);
    TreeOk(p);
    ParsesExactly(Payload.Json(p), Tree(p));
    TreeReads(p);
  }

  lemma TreeOk(p: Payload.EventPayload)
    ensures DocumentOk(Tree(p))
  {
    hide TokensOf, Packed;
    TokenCount(p);
    NamesPlain();
    TokensPlain(p);
    PackedOk(NAMES, TokensOf(p), {});
  }

  lemma TreeReads(p: Payload.EventPayload)
    ensures IsPayload(DataOf(Tree(p).root), p)
  {
    hide Packed, Escape, Decoded, CodesOf, Render;
    PackedData(NAMES, TokensOf(p));
    EscapeReads(p.eventKey);
    EscapeReads(p.kind);
    EscapeReads(p.source);
    EscapeReads(p.title);
    EscapeReads(p.body);
    EscapeReads("/");
  }
}
