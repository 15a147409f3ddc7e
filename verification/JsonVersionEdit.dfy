/** `_json_edit`: which fields a declaration owns, and the right-to-left splice of their new values. */
module JsonVersionEdit {
  import opened Basics
  import opened Decimal
  import opened JsonStrings
  import opened JsonSyntax
  import opened JsonRoundTrip
  import opened JsonPaths
  import opened JsonOwnedFields
  import D = JsonDocument

  datatype Edit = Edit(path: Path, token: Scalar)

  function Lookup(d: Data, key: Codes): Option<Data> {
    if d.Obj? then Find(d.fields, key) else None
  }

  function Find(fields: seq<Field>, key: Codes): Option<Data> {
    if fields == [] then None else if fields[0].name == key then Some(fields[0].value) else Find(fields[1..], key)
  }

  predicate Names(d: Data, package: string) {
    match Lookup(d, CodesOf("name"))
    case Some(Atom(Str(raw))) => Decoded(raw) == CodesOf(package)
    case _ => false
  }

  const VERSION: Path := [Key("version")]
  const OWN_VERSION: Path := [Key("packages"), Key(""), Key("version")]

  /** The fields to set, or nothing when the document is not the declared package's. */
  function FieldsOf(root: Data, declaration: Declaration): Option<seq<Path>> {
    match declaration
    case Manifest(field, owner) =>
      if owner.Some? && !Names(root, owner.value) then None else Some([field])
    case NpmLock(package) =>
      if !Names(root, package) then None
      else
        var packages := Lookup(root, CodesOf("packages"));
        if packages.None? then Some([VERSION])
        else
          var own := Lookup(packages.value, []);
          if own.None? || !own.value.Obj? then None
          else if Lookup(own.value, CodesOf("name")).None? || Names(own.value, package) then Some([VERSION, OWN_VERSION])
          else None
  }

  function IntegerToken(n: int): Scalar { if n < 0 then Integer(true, -n) else Integer(false, n) }

  function IntegerText(n: int): string { TokenText(IntegerToken(n)) }

  /** `_scalar`: strings take the projection as text, integers only a number, and nothing else is owned. */
  function Replacement(was: Scalar, value: Projection): Option<Scalar> {
    match was
    case Str(_) => Some(Str(Escape(if value.Number? then IntegerText(value.n) else value.s)))
    case Integer(_, _) => if value.Number? then Some(IntegerToken(value.n)) else None
    case _ => None
  }

  /** Equality of values: minus zero is zero, and strings are what they read as. */
  predicate SameValue(s: Scalar, t: Scalar) {
    || s == t
    || (s.Integer? && t.Integer? && s.digits == 0 && t.digits == 0)
    || (s.Str? && t.Str? && Decoded(s.raw) == Decoded(t.raw))
  }

  function PutAll(n: Node, edits: seq<Edit>): Node {
    if edits == [] then n
    else Put(PutAll(n, edits[..|edits| - 1]), edits[|edits| - 1].path, edits[|edits| - 1].token)
  }

  function PutAllData(d: Data, edits: seq<Edit>): Data {
    if edits == [] then d
    else PutData(PutAllData(d, edits[..|edits| - 1]), edits[|edits| - 1].path, edits[|edits| - 1].token)
  }

  lemma {:induction false} PutAllKeeps(n: Node, edits: seq<Edit>)
    requires NodeOk(n) && forall e :: e in edits ==> TokenOk(e.token)
    ensures NodeOk(PutAll(n, edits)) && DataOf(PutAll(n, edits)) == PutAllData(DataOf(n), edits)
  {
    if edits != [] {
      var most, last := edits[..|edits| - 1], edits[|edits| - 1];
      PutAllKeeps(n, most);
      PutOk(PutAll(n, most), last.path, last.token);
      PutIsPutData(PutAll(n, most), last.path, last.token);
    }
  }

  lemma {:induction false} PutAllKeepsLayout(n: Node, edits: seq<Edit>)
    ensures Layout(PutAll(n, edits)) == Layout(n)
  {
    if edits != [] {
      PutAllKeepsLayout(n, edits[..|edits| - 1]);
      PutKeepsLayout(PutAll(n, edits[..|edits| - 1]), edits[|edits| - 1].path, edits[|edits| - 1].token);
    }
  }

  lemma TokenNotEmpty(t: Scalar)
    ensures TokenText(t) != ""
  {
    if t.Integer? || t.Float? {
      ValueOfRender(t.digits);
    }
  }

  /** Every edit names a scalar, each a different one, from the last in the text to the first. */
  ghost predicate RightToLeft(n: Node, edits: seq<Edit>) {
    && (forall i :: 0 <= i < |edits| ==> At(n, edits[i].path).Some?)
    && (forall i, j :: 0 <= i < j < |edits| ==>
          && edits[i].path != edits[j].path
          && Start(At(n, edits[j].path).value) <= Start(At(n, edits[i].path).value))
  }

  function Splice(text: string, start: nat, end: nat, token: string): string
    requires start <= end <= |text|
  {
    text[..start] + token + text[end..]
  }

  /** The place of `q` in `m` is the one it had in `n`. */
  ghost predicate SamePlace(n: Node, m: Node, q: Path) {
    && At(n, q).Some? && At(m, q).Some?
    && At(m, q).value.before == At(n, q).value.before && At(m, q).value.token == At(n, q).value.token
  }

  /** A replacement further right does not move what is to its left. */
  lemma {:induction false} LaterPutKeepsPlace(n: Node, m: Node, p: Path, q: Path, token: Scalar)
    requires SamePlace(n, m, p) && SamePlace(n, m, q) && p != q
    requires Start(At(n, q).value) <= Start(At(n, p).value)
    ensures SamePlace(n, Put(m, p, token), q)
  {
    PathsApart(m, p, q, token, token);
    TokenNotEmpty(At(m, p).value.token);
  }

  /** The document's text with another root. */
  function TextWith(d: Document, m: Node): string { d.before + Text(m) + d.after }

  lemma {:induction false} TextAround(d: Document, m: Node, p: Path, token: Scalar)
    requires At(m, p).Some?
    ensures var v := At(m, p).value;
      && TextWith(d, m) == (d.before + v.before) + TokenText(v.token) + (v.after + d.after)
      && TextWith(d, Put(m, p, token)) == (d.before + v.before) + TokenText(token) + (v.after + d.after)
  {
    var v := At(m, p).value;
    PlaceInside(m, p);
    PutText(m, p, token);
    Shift(d.before, v, v.token, d.after);
    Shift(d.before, v, token, d.after);
  }

  /** One splice at the span of a scalar puts the token into the document. */
  lemma {:induction false} SpliceIsPut(d: Document, m: Node, p: Path, token: Scalar, start: nat, end: nat)
    requires At(m, p).Some? && start == |d.before| + Start(At(m, p).value) && end == |d.before| + End(At(m, p).value)
    ensures end <= |TextWith(d, m)| && Splice(TextWith(d, m), start, end, TokenText(token)) == TextWith(d, Put(m, p, token))
  {
    var v := At(m, p).value;
    TextAround(d, m, p, token);
    var left, was, right := d.before + v.before, TokenText(v.token), v.after + d.after;
    assert start == |left| && end == |left| + |was|;
    SplicePieces(left, was, right, TokenText(token));
  }

  lemma SplicePieces(left: string, middle: string, right: string, token: string)
    ensures var text := left + middle + right;
      && text[|left|..|left| + |middle|] == middle
      && Splice(text, |left|, |left| + |middle|, token) == left + token + right
  {
    var text := left + middle + right;
    assert text[..|left|] == left;
    assert text[|left| + |middle|..] == right;
  }

  lemma {:induction false} RecordedSpan(d: Document, path: Path)
    requires NodeOk(d.root) && At(d.root, path).Some?
    ensures SpannedAt(D.SpansOf(d.root, |d.before|, []), d, path)
  {
    D.SpansArePlaces(d.root, |d.before|, [], path);
    assert [] + path == path;
  }

  /** The table has the span of each edited scalar. */
  ghost predicate Spanned(spans: D.Spans, d: Document, edits: seq<Edit>) {
    forall i :: 0 <= i < |edits| ==> SpannedAt(spans, d, edits[i].path)
  }

  ghost predicate SpannedAt(spans: D.Spans, d: Document, path: Path) {
    && At(d.root, path).Some? && path in spans
    && spans[path] == (|d.before| + Start(At(d.root, path).value), |d.before| + End(At(d.root, path).value))
  }

  /** The edits from `k` on still have the places they had at first. */
  ghost predicate Untouched(n: Node, m: Node, edits: seq<Edit>, k: nat) {
    forall j :: k <= j < |edits| ==> SamePlace(n, m, edits[j].path)
  }

  lemma {:induction false} StillUntouched(n: Node, m: Node, edits: seq<Edit>, k: nat)
    requires RightToLeft(n, edits) && k < |edits| && Untouched(n, m, edits, k)
    ensures Untouched(n, Put(m, edits[k].path, edits[k].token), edits, k + 1)
  {
    forall j | k < j < |edits| ensures SamePlace(n, Put(m, edits[k].path, edits[k].token), edits[j].path) {
      LaterPutKeepsPlace(n, m, edits[k].path, edits[j].path, edits[k].token);
    }
  }

  /** The loop over the edits, each with the span recorded when the text was first parsed. */
  method SpliceAll(text: string, spans: D.Spans, ghost d: Document, edits: seq<Edit>) returns (out: string)
    requires text == DocumentText(d) && Spanned(spans, d, edits) && RightToLeft(d.root, edits)
    ensures out == TextWith(d, PutAll(d.root, edits))
  {
    out := text;
    ghost var m := d.root;
    assert edits[..0] == [];
    for k := 0 to |edits|
      invariant m == PutAll(d.root, edits[..k]) && out == TextWith(d, m)
      invariant Untouched(d.root, m, edits, k)
    {
      var (start, end) := spans[edits[k].path];
      assert SamePlace(d.root, m, edits[k].path);
      SpliceIsPut(d, m, edits[k].path, edits[k].token, start, end);
      StillUntouched(d.root, m, edits, k);
      out := Splice(out, start, end, TokenText(edits[k].token));
      m := Put(m, edits[k].path, edits[k].token);
      assert edits[..k + 1][..k] == edits[..k];
    }
    assert edits[..|edits|] == edits;
  }

  /** The edits for the owned fields, in declaration order; nothing when one of them cannot be set. */
  function EditsFor(d: Data, fields: seq<Path>, value: Projection): Option<seq<Edit>> {
    if fields == [] then Some([])
    else
      var was := Get(d, fields[0]);
      var rest := EditsFor(d, fields[1..], value);
      if was.None? || rest.None? then None
      else
        var token := Replacement(was.value, value);
        if token.None? then None
        else if SameValue(was.value, token.value) then rest
        else Some([Edit(fields[0], token.value)] + rest.value)
  }

  /** What the whole operation promises: the same document with exactly the owned fields set. */
  ghost predicate Updated(raw: string, declaration: Declaration, value: Projection, out: Option<string>) {
    var d := ParseDocument(raw);
    if d.None? then out.None?
    else
      var fields := FieldsOf(DataOf(d.value.root), declaration);
      if fields.None? then out.None?
      else
        var edits := EditsFor(DataOf(d.value.root), fields.value, value);
        if edits.None? then out.None?
        else
          && out.Some?
          && ParseDocument(out.value).Some?
          && SameLayout(d.value, ParseDocument(out.value).value)
          && DataOf(ParseDocument(out.value).value.root) == PutAllData(DataOf(d.value.root), edits.value)
          && (edits.value == [] ==> out.value == raw)
  }

  lemma ReplacementOk(was: Scalar, value: Projection)
    ensures var token := Replacement(was, value); token.Some? ==> TokenOk(token.value)
  {
    EscapeReads(if value.Number? then IntegerText(value.n) else value.s);
  }

  lemma {:induction false} EditsOk(n: Node, fields: seq<Path>, value: Projection)
    requires EditsFor(DataOf(n), fields, value).Some?
    ensures forall e :: e in EditsFor(DataOf(n), fields, value).value ==>
      TokenOk(e.token) && At(n, e.path).Some? && e.path in fields
    decreases |fields|
  {
    hide At, DataOf, Get, Replacement, TokenOk, SameValue;
    if fields != [] {
      EditsOk(n, fields[1..], value);
      GetIsAt(n, fields[0]);
      ReplacementOk(Get(DataOf(n), fields[0]).value, value);
    }
  }

  lemma FieldsAre(root: Data, declaration: Declaration)
    requires FieldsOf(root, declaration).Some?
    ensures var f := FieldsOf(root, declaration).value;
      |f| == 1 || (f == [VERSION, OWN_VERSION] && VERSION != OWN_VERSION)
  {
    assert |VERSION| == 1 && |OWN_VERSION| == 3;
  }

  lemma {:induction false} EditsAre(d: Data, fields: seq<Path>, value: Projection)
    requires EditsFor(d, fields, value).Some? && 1 <= |fields| <= 2
    ensures var edits := EditsFor(d, fields, value).value;
      |edits| <= |fields| && (|edits| == 2 ==> edits[0].path == fields[0] && edits[1].path == fields[1])
  {
    var rest := EditsFor(d, fields[1..], value).value;
    if |fields| == 2 {
      assert EditsFor(d, fields[1..][1..], value) == Some([]);
    }
  }

  lemma {:induction false} Commute(d: Data, a: Edit, b: Edit)
    requires a.path != b.path
    ensures PutAllData(d, [a, b]) == PutAllData(d, [b, a])
  {
    PutDataCommutes(d, a.path, a.token, b.path, b.token);
    OneThenTwo(d, a, b);
    OneThenTwo(d, b, a);
  }

  lemma {:induction false} OneThenTwo(d: Data, a: Edit, b: Edit)
    ensures PutAllData(d, [a, b]) == PutData(PutData(d, a.path, a.token), b.path, b.token)
  {
    assert [a, b][..1] == [a] && [a][..0] == [];
    assert PutAllData(d, [a]) == PutData(PutAllData(d, []), a.path, a.token);
  }

  /** Replacements at different paths do not depend on their order. */
  lemma {:induction false} PutDataCommutes(d: Data, p: Path, s: Scalar, q: Path, t: Scalar)
    requires p != q
    ensures PutData(PutData(d, p, s), q, t) == PutData(PutData(d, q, t), p, s)
    decreases |p|, 0
  {
    if d.Obj? && p != [] && q != [] && p[0].K? && q[0].K? {
      assert p == [p[0]] + p[1..] && q == [q[0]] + q[1..];
      FieldsCommute(d.fields, p[0].key, p[1..], s, q[0].key, q[1..], t);
    } else if d.Arr? && p != [] && q != [] && p[0].I? && q[0].I? {
      assert p == [p[0]] + p[1..] && q == [q[0]] + q[1..];
      ElementsCommute(d.elements, p[0].index, p[1..], s, q[0].index, q[1..], t);
    }
  }

  lemma {:induction false} FieldsCommute(f: seq<Field>, k: Codes, p: Path, s: Scalar, l: Codes, q: Path, t: Scalar)
    requires k != l || p != q
    ensures PutField(PutField(f, k, p, s), l, q, t) == PutField(PutField(f, l, q, t), k, p, s)
    decreases |p|, 1 + |f|
  {
    if f != [] {
      if f[0].name == k && f[0].name == l {
        PutDataCommutes(f[0].value, p, s, q, t);
      } else if f[0].name != k && f[0].name != l {
        FieldsCommute(f[1..], k, p, s, l, q, t);
      }
    }
  }

  lemma {:induction false} ElementsCommute(f: seq<Data>, i: nat, p: Path, s: Scalar, j: nat, q: Path, t: Scalar)
    requires i != j || p != q
    ensures PutElement(PutElement(f, i, p, s), j, q, t) == PutElement(PutElement(f, j, q, t), i, p, s)
    decreases |p|, 1 + |f|
  {
    if f != [] {
      if i == 0 && j == 0 {
        PutDataCommutes(f[0], p, s, q, t);
      } else if i > 0 && j > 0 {
        ElementsCommute(f[1..], i - 1, p, s, j - 1, q, t);
      }
    }
  }

  /** The edits in the order `sorted(edits, reverse=True)` gives them: by recorded start, the last first. */
  function Ordered(spans: D.Spans, edits: seq<Edit>): seq<Edit>
    requires forall e :: e in edits ==> e.path in spans
  {
    if |edits| == 2 && spans[edits[0].path].0 < spans[edits[1].path].0 then [edits[1], edits[0]] else edits
  }

  /** Order does not matter to the data: the ordered edits do what the declared ones say. */
  lemma {:induction false} OrderedSameData(spans: D.Spans, d: Document, edits: seq<Edit>)
    requires Spanned(spans, d, edits) && |edits| <= 2 && (|edits| == 2 ==> edits[0].path != edits[1].path)
    ensures forall e :: e in edits ==> e.path in spans
    ensures Spanned(spans, d, Ordered(spans, edits)) && RightToLeft(d.root, Ordered(spans, edits))
    ensures PutAllData(DataOf(d.root), Ordered(spans, edits)) == PutAllData(DataOf(d.root), edits)
  {
    if |edits| == 2 && spans[edits[0].path].0 < spans[edits[1].path].0 {
      var a, b := edits[0], edits[1];
      assert edits == [a, b];
      Swapped(spans, d, a, b);
      Commute(DataOf(d.root), a, b);
      TwoRightToLeft(d.root, [b, a]);
    } else {
      TwoRightToLeft(d.root, edits);
    }
  }

  lemma {:induction false} TwoRightToLeft(n: Node, edits: seq<Edit>)
    requires |edits| <= 2 && forall i :: 0 <= i < |edits| ==> At(n, edits[i].path).Some?
    requires |edits| == 2 ==>
      edits[0].path != edits[1].path && Start(At(n, edits[1].path).value) <= Start(At(n, edits[0].path).value)
    ensures RightToLeft(n, edits)
  {
  }

  lemma Swapped(spans: D.Spans, d: Document, a: Edit, b: Edit)
    requires Spanned(spans, d, [a, b])
    ensures Spanned(spans, d, [b, a])
  {
    assert [a, b][0] == a && [a, b][1] == b;
  }

  lemma AllSpanned(d: Document, edits: seq<Edit>)
    requires NodeOk(d.root) && forall i :: 0 <= i < |edits| ==> At(d.root, edits[i].path).Some?
    ensures Spanned(D.SpansOf(d.root, |d.before|, []), d, edits)
  {
    ghost var spans := D.SpansOf(d.root, |d.before|, []);
    forall i | 0 <= i < |edits| ensures SpannedAt(spans, d, edits[i].path) {
      RecordedSpan(d, edits[i].path);
    }
  }

  // ----- what the owned fields and their edits are

  /** No object in the data has a name twice. */
  ghost predicate NamesOnce(d: Data) {
    match d
    case Atom(_) => true
    case Obj(fields) => NamesDiffer(fields) && forall i :: 0 <= i < |fields| ==> NamesOnce(fields[i].value)
    case Arr(elements) => forall i :: 0 <= i < |elements| ==> NamesOnce(elements[i])
  }

  lemma {:induction false} ParsedNamesOnce(n: Node)
    requires NodeOk(n)
    ensures NamesOnce(DataOf(n))
    decreases n
  {
    match n
    case Object(_, members) => MemberNamesOnce(members, {});
    case Array(_, items) =>
      ItemNamesOnce(items);
      assert DataOf(n) == Arr(ItemsData(items));
    case _ =>
  }

  lemma {:induction false} MemberNamesOnce(m: Members, before: set<Codes>)
    requires MembersOk(m, before)
    ensures var fields := MembersData(m);
      NamesDiffer(fields) && forall i :: 0 <= i < |fields| ==> fields[i].name !in before && NamesOnce(fields[i].value)
    decreases m
  {
    ParsedNamesOnce(m.member.value);
    if m.MoreMembers? {
      MemberNamesOnce(m.rest, before + {m.member.name.key});
      var rest := MembersData(m.rest);
      assert forall i :: 0 < i < |MembersData(m)| ==> MembersData(m)[i] == rest[i - 1];
    }
  }

  lemma {:induction false} ItemNamesOnce(t: Items)
    requires ItemsOk(t)
    ensures var elements := ItemsData(t); forall i :: 0 <= i < |elements| ==> NamesOnce(elements[i])
    decreases t
  {
    ParsedNamesOnce(t.item.value);
    if t.MoreItems? {
      ItemNamesOnce(t.rest);
      assert forall i :: 0 < i < |ItemsData(t)| ==> ItemsData(t)[i] == ItemsData(t.rest)[i - 1];
    }
  }

  lemma {:induction false} FoundOnce(fields: seq<Field>, key: Codes, v: Data)
    requires NamesDiffer(fields)
    ensures Find(fields, key) == Some(v) <==> exists i :: 0 <= i < |fields| && fields[i] == Field(key, v)
  {
    if fields != [] {
      var rest := fields[1..];
      assert forall i :: 0 <= i < |rest| ==> rest[i] == fields[i + 1];
      FoundOnce(rest, key, v);
      if i :| 0 <= i < |fields| && fields[i] == Field(key, v) {
        assert i > 0 ==> rest[i - 1] == Field(key, v);
      }
    }
  }

  lemma {:induction false} LookupExactly(d: Data, name: string, v: Data)
    requires NamesOnce(d)
    ensures Lookup(d, CodesOf(name)) == Some(v) <==> HasField(d, name, v)
    ensures HasField(d, name, v) ==> NamesOnce(v)
  {
    if d.Obj? {
      FoundOnce(d.fields, CodesOf(name), v);
    }
  }

  lemma {:induction false} HasExactly(d: Data, name: string)
    requires NamesOnce(d)
    ensures Has(d, name) <==> Lookup(d, CodesOf(name)).Some?
  {
    if Lookup(d, CodesOf(name)).Some? {
      LookupExactly(d, name, Lookup(d, CodesOf(name)).value);
    }
    if v :| HasField(d, name, v) {
      LookupExactly(d, name, v);
    }
  }

  lemma {:induction false} NamedExactly(d: Data, package: string)
    requires NamesOnce(d)
    ensures NamedAs(d, package) <==> Names(d, package)
  {
    if Names(d, package) {
      LookupExactly(d, "name", Lookup(d, CodesOf("name")).value);
    }
    if raw :| HasField(d, "name", Atom(Str(raw))) && Decoded(raw) == CodesOf(package) {
      LookupExactly(d, "name", Atom(Str(raw)));
    }
  }

  lemma {:induction false} RootExactly(root: Data, package: string)
    requires NamesOnce(root)
    ensures var packages := Lookup(root, CodesOf("packages"));
      ListsRoot(root, package) <==>
        && packages.Some? && Lookup(packages.value, []).Some?
        && var own := Lookup(packages.value, []).value;
           own.Obj? && (Lookup(own, CodesOf("name")).None? || Names(own, package))
  {
    assert CodesOf("") == [];
    var packages := Lookup(root, CodesOf("packages"));
    if packages.Some? {
      LookupExactly(root, "packages", packages.value);
      var own := Lookup(packages.value, []);
      if own.Some? {
        LookupExactly(packages.value, "", own.value);
        HasExactly(own.value, "name");
        NamedExactly(own.value, package);
      }
    }
    if p, own :| HasField(root, "packages", p) && HasField(p, "", own) && own.Obj? && (Has(own, "name") ==> NamedAs(own, package)) {
      LookupExactly(root, "packages", p);
      LookupExactly(p, "", own);
    }
  }

  /** The fields found are those that the declaration owns. */
  lemma {:induction false} FieldsExactly(root: Data, declaration: Declaration)
    requires NamesOnce(root)
    ensures FieldsOf(root, declaration).Some? <==> IsOwner(root, declaration)
    ensures FieldsOf(root, declaration).Some? ==> forall p :: p in FieldsOf(root, declaration).value <==> IsOwned(root, declaration, p)
  {
    assert CodesOf("") == [];
    HasExactly(root, "packages");
    match declaration {
      case NpmLock(package) =>
        NamedExactly(root, package);
        RootExactly(root, package);
      case Manifest(field, owner) =>
        if owner.Some? { NamedExactly(root, owner.value); }
    }
  }

  lemma ReplacementReads(was: Scalar, value: Projection)
    ensures var token := Replacement(was, value);
      && (token.Some? <==> Takes(Some(was), value))
      && (token.Some? ==> ReadsAs(token.value, was, value) && (SameValue(was, token.value) <==> ReadsAs(was, was, value)))
  {
    hide Render, Escape, Decoded;
    assert value.Number? ==> IntegerText(value.n) == DecimalText(value.n) by {
      if value.Number? { IntegerIsDecimal(value.n); }
    }
    EscapeReads(if value.Number? then IntegerText(value.n) else value.s);
  }

  lemma IntegerIsDecimal(n: int)
    ensures IntegerText(n) == DecimalText(n)
  {
    hide Render;
    assert "" + Render(if n < 0 then -n else n) == Render(if n < 0 then -n else n);
  }

  /** The token that the edits leave at a path, if they set it. */
  function Token(edits: seq<Edit>, p: Path): Option<Scalar> {
    if edits == [] then None
    else if edits[|edits| - 1].path == p then Some(edits[|edits| - 1].token)
    else Token(edits[..|edits| - 1], p)
  }

  lemma {:induction false} TokenFront(e: Edit, rest: seq<Edit>, p: Path)
    ensures Token([e] + rest, p) == if Token(rest, p).Some? then Token(rest, p) else if e.path == p then Some(e.token) else None
  {
    var all := [e] + rest;
    if rest == [] {
      assert all == [e] && all[..0] == [];
    } else {
      assert all[..|all| - 1] == [e] + rest[..|rest| - 1];
      TokenFront(e, rest[..|rest| - 1], p);
    }
  }

  lemma {:induction false} GetAfterAll(d: Data, edits: seq<Edit>, p: Path)
    requires forall e :: e in edits ==> Get(d, e.path).Some?
    ensures Get(PutAllData(d, edits), p) == if Token(edits, p).Some? then Token(edits, p) else Get(d, p)
    ensures Skeleton(PutAllData(d, edits)) == Skeleton(d)
  {
    if edits != [] {
      var most, last := edits[..|edits| - 1], edits[|edits| - 1];
      GetAfterAll(d, most, p);
      GetAfterAll(d, most, last.path);
      GetAfterPut(PutAllData(d, most), last.path, last.token, p);
      PutKeepsSkeleton(PutAllData(d, most), last.path, last.token);
    }
  }

  /** After the edits the field reads as the value, whether one of them sets it or it did so before. */
  ghost predicate SetBy(d: Data, edits: seq<Edit>, value: Projection, p: Path) {
    var token := Token(edits, p);
    Get(d, p).Some? && ReadsAs(if token.Some? then token.value else Get(d, p).value, Get(d, p).value, value)
  }

  /** Every field that takes the value is set by its edit, and no other path is. */
  lemma {:induction false} EditsExactly(d: Data, fields: seq<Path>, value: Projection, p: Path)
    requires forall i, j :: 0 <= i < j < |fields| ==> fields[i] != fields[j]
    ensures EditsFor(d, fields, value).Some? ==>
      var edits := EditsFor(d, fields, value).value;
      (p in fields ==> SetBy(d, edits, value, p)) && (p !in fields ==> Token(edits, p).None?)
    decreases |fields|
  {
    hide Get, ReadsAs, Replacement, SameValue, Takes;
    if fields != [] && EditsFor(d, fields, value).Some? {
      var rest := fields[1..];
      assert forall i :: 0 <= i < |rest| ==> rest[i] == fields[i + 1];
      EditsExactly(d, rest, value, p);
      var was := Get(d, fields[0]).value;
      ReplacementReads(was, value);
      var edits := EditsFor(d, rest, value).value;
      TokenFront(Edit(fields[0], Replacement(was, value).value), edits, p);
    }
  }

  lemma {:induction false} EditsNeeded(d: Data, fields: seq<Path>, value: Projection)
    ensures EditsFor(d, fields, value).Some? <==> forall p :: p in fields ==> Takes(Get(d, p), value)
    ensures EditsFor(d, fields, value).Some? && (forall p :: p in fields ==> ReadsAs(Get(d, p).value, Get(d, p).value, value)) ==>
      EditsFor(d, fields, value) == Some([])
    decreases |fields|
  {
    hide Get, ReadsAs, Replacement, SameValue;
    if fields != [] {
      assert forall p :: p in fields <==> p == fields[0] || p in fields[1..];
      EditsNeeded(d, fields[1..], value);
      if Get(d, fields[0]).Some? {
        ReplacementReads(Get(d, fields[0]).value, value);
      }
    }
  }

  /** What was computed is what is promised. */
  lemma UpdatedKeepsPromise(raw: string, declaration: Declaration, value: Projection, out: Option<string>)
    requires Updated(raw, declaration, value, out)
    ensures EditPromise(raw, declaration, value, out)
  {
    var d := ParseDocument(raw);
    if d.Some? {
      ParsesExactly(raw, d.value);
      ParsedNamesOnce(d.value.root);
      var root := DataOf(d.value.root);
      FieldsExactly(root, declaration);
      var fields := FieldsOf(root, declaration);
      if fields.Some? {
        EditsNeeded(root, fields.value, value);
        if out.Some? {
          FieldsAre(root, declaration);
          EditsAreEdit(root, declaration, fields.value, value);
        }
      }
    }
  }

  lemma {:induction false} EditsAreEdit(root: Data, declaration: Declaration, fields: seq<Path>, value: Projection)
    requires FieldsOf(root, declaration) == Some(fields) && EditsFor(root, fields, value).Some?
    requires forall p :: p in fields <==> IsOwned(root, declaration, p)
    requires |fields| == 1 || (fields == [VERSION, OWN_VERSION] && VERSION != OWN_VERSION)
    ensures IsEdit(root, declaration, value, PutAllData(root, EditsFor(root, fields, value).value))
  {
    var edits := EditsFor(root, fields, value).value;
    EditsFound(root, fields, value);
    forall p ensures Get(PutAllData(root, edits), p) == if Token(edits, p).Some? then Token(edits, p) else Get(root, p) {
      GetAfterAll(root, edits, p);
    }
    GetAfterAll(root, edits, []);
    forall p ensures (p in fields ==> SetBy(root, edits, value, p)) && (p !in fields ==> Token(edits, p).None?) {
      EditsExactly(root, fields, value, p);
    }
  }

  lemma {:induction false} EditsFound(d: Data, fields: seq<Path>, value: Projection)
    requires EditsFor(d, fields, value).Some?
    ensures forall e :: e in EditsFor(d, fields, value).value ==> Get(d, e.path).Some?
    decreases |fields|
  {
    if fields != [] {
      EditsFound(d, fields[1..], value);
    }
  }

  /** The values that the fields had. */
  function OldsOf(d: Data, fields: seq<Path>): seq<Scalar>
    requires forall p :: p in fields ==> Get(d, p).Some?
  {
    seq(|fields|, i requires 0 <= i < |fields| => Get(d, fields[i]).value)
  }

  lemma OldsWereRead(raw: string, declaration: Declaration, value: Projection, out: Option<string>, previous: seq<Scalar>)
    requires Updated(raw, declaration, value, out) && out.Some?
    requires var root := DataOf(ParseDocument(raw).value.root);
      var fields := FieldsOf(root, declaration).value;
      |previous| == |fields| && forall i :: 0 <= i < |fields| ==> Get(root, fields[i]) == Some(previous[i])
    ensures WereRead(DataOf(ParseDocument(raw).value.root), declaration, previous)
  {
    var d := ParseDocument(raw).value;
    ParsesExactly(raw, d);
    ParsedNamesOnce(d.root);
    HasExactly(DataOf(d.root), "packages");
  }

  lemma {:induction false} EditedIsUpdated(raw: string, d: Document, declaration: Declaration, value: Projection, fields: seq<Path>, edits: seq<Edit>,
                        ordered: seq<Edit>, text: string)
    requires ParseDocument(raw) == Some(d) && DocumentOk(d) && raw == DocumentText(d)
    requires FieldsOf(DataOf(d.root), declaration) == Some(fields) && EditsFor(DataOf(d.root), fields, value) == Some(edits)
    requires (forall e :: e in ordered ==> TokenOk(e.token)) && (edits == [] ==> ordered == [])
    requires PutAllData(DataOf(d.root), ordered) == PutAllData(DataOf(d.root), edits)
    requires text == TextWith(d, PutAll(d.root, ordered))
    ensures Updated(raw, declaration, value, Some(text))
  {
    hide EditsFor, FieldsOf, DataOf, PutAllData, Layout, ParseDocument;
    PutAllKeeps(d.root, ordered);
    PutAllKeepsLayout(d.root, ordered);
    ParsesExactly(text, d.(root := PutAll(d.root, ordered)));
  }

  /** The edits, ordered and spliced from the last to the first. */
  method EditText(raw: string, declaration: Declaration, value: Projection) returns (out: Option<string>, previous: seq<Scalar>)
    ensures Updated(raw, declaration, value, out)
    ensures out.Some? ==>
      var root := DataOf(ParseDocument(raw).value.root);
      var fields := FieldsOf(root, declaration).value;
      |previous| == |fields| && forall i :: 0 <= i < |fields| ==> Get(root, fields[i]) == Some(previous[i])
  {
    hide EditsFor, FieldsOf, Get, DataOf, PutAllData, ParseDocument, SameLayout;
    var data, spans := D.Load(raw);
    if data.None? {
      return None, [];
    }
    ghost var d := ParseDocument(raw).value;
    ParsesExactly(raw, d);
    var fields := FieldsOf(data.value, declaration);
    if fields.None? {
      return None, [];
    }
    var edits := EditsFor(data.value, fields.value, value);
    EditsNeeded(data.value, fields.value, value);
    if edits.None? {
      return None, [];
    }
    EditsOk(d.root, fields.value, value);
    FieldsAre(data.value, declaration);
    EditsAre(data.value, fields.value, value);
    AllSpanned(d, edits.value);
    OrderedSameData(spans, d, edits.value);
    var ordered := Ordered(spans, edits.value);
    var text := SpliceAll(raw, spans, d, ordered);
    EditedIsUpdated(raw, d, declaration, value, fields.value, edits.value, ordered, text);
    out, previous := Some(text), OldsOf(data.value, fields.value);
  }

  /** `_json_edit`: nothing when the text is not the declared package's document or its fields cannot be set. */
  method JsonEdit(raw: string, declaration: Declaration, value: Projection) returns (out: Option<string>, previous: seq<Scalar>)
    ensures EditPromise(raw, declaration, value, out)
    ensures out.Some? ==> WereRead(DataOf(ParseDocument(raw).value.root), declaration, previous)
  {
    hide EditPromise, Updated;
    out, previous := EditText(raw, declaration, value);
    UpdatedKeepsPromise(raw, declaration, value, out);
    if out.Some? {
      OldsWereRead(raw, declaration, value, out, previous);
    }
  }
}
