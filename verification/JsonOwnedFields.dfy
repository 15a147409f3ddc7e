/**
 What an edit promises, said of the document before and after it: which fields a declaration owns, what a field
 reads as once it is set, and that the two documents differ in nothing else.
 */
module JsonOwnedFields {
  import opened Basics
  import opened Decimal
  import opened JsonStrings
  import opened JsonSyntax
  import opened JsonPaths

  datatype Declaration = NpmLock(package: string) | Manifest(field: Path, owner: Option<string>)

  datatype Projection = Number(n: int) | Words(s: string)

  function Key(name: string): Step { K(CodesOf(name)) }

  ghost predicate HasField(d: Data, name: string, v: Data) {
    d.Obj? && exists i :: 0 <= i < |d.fields| && d.fields[i] == Field(CodesOf(name), v)
  }

  ghost predicate Has(d: Data, name: string) { exists v :: HasField(d, name, v) }

  /** The object's name is the package. */
  ghost predicate NamedAs(d: Data, package: string) {
    exists raw :: HasField(d, "name", Atom(Str(raw))) && Decoded(raw) == CodesOf(package)
  }

  /** The root package that a lock lists is an object with no other name. */
  ghost predicate ListsRoot(root: Data, package: string) {
    exists packages, own ::
      HasField(root, "packages", packages) && HasField(packages, "", own) && own.Obj? && (Has(own, "name") ==> NamedAs(own, package))
  }

  /** The document is the declared package's. */
  ghost predicate IsOwner(root: Data, declaration: Declaration) {
    match declaration
    case Manifest(_, owner) => owner.Some? ==> NamedAs(root, owner.value)
    case NpmLock(package) => NamedAs(root, package) && (Has(root, "packages") ==> ListsRoot(root, package))
  }

  /** A manifest has one owned field; a lock has its version and, if it lists packages, that of the root package. */
  ghost predicate IsOwned(root: Data, declaration: Declaration, path: Path) {
    match declaration
    case Manifest(field, _) => path == field
    case NpmLock(_) =>
      path == [Key("version")] || (Has(root, "packages") && path == [Key("packages"), Key(""), Key("version")])
  }

  function DecimalText(n: int): string { if n < 0 then "-" + Render(-n) else Render(n) }

  function IntegerOf(s: Scalar): int
    requires s.Integer?
  {
    if s.negative then 0 - s.digits else s.digits
  }

  /** A string field reads as the value's text, a number as the number. */
  ghost predicate ReadsAs(s: Scalar, was: Scalar, value: Projection) {
    match was
    case Str(_) => s.Str? && Decoded(s.raw) == CodesOf(if value.Number? then DecimalText(value.n) else value.s)
    case Integer(_, _) => s.Integer? && value.Number? && IntegerOf(s) == value.n
    case _ => false
  }

  /** The field is a string, or an integer and the value a number. */
  ghost predicate Takes(s: Option<Scalar>, value: Projection) {
    s.Some? && (s.value.Str? || (s.value.Integer? && value.Number?))
  }

  /** The data without its scalars. */
  function Skeleton(d: Data): Data {
    match d
    case Atom(_) => Atom(Literal(Null))
    case Obj(fields) => Obj(FieldSkeletons(fields))
    case Arr(elements) => Arr(Skeletons(elements))
  }

  function FieldSkeletons(fields: seq<Field>): seq<Field> {
    if fields == [] then [] else [Field(fields[0].name, Skeleton(fields[0].value))] + FieldSkeletons(fields[1..])
  }

  function Skeletons(elements: seq<Data>): seq<Data> {
    if elements == [] then [] else [Skeleton(elements[0])] + Skeletons(elements[1..])
  }

  // ----- the text around the scalars

  /** The tree without its scalars: names as they are written, and all white space. */
  function Layout(n: Node): Node {
    match n
    case Leaf(_) => Leaf(Literal(Null))
    case EmptyObject(_) => n
    case Object(inside, members) => Object(inside, MembersLayout(members))
    case EmptyArray(_) => n
    case Array(inside, items) => Array(inside, ItemsLayout(items))
  }

  function MembersLayout(m: Members): Members {
    var member := Member(m.member.name, m.member.w1, m.member.w2, Layout(m.member.value), m.member.w3);
    match m
    case LastMember(_) => LastMember(member)
    case MoreMembers(_, w4, rest) => MoreMembers(member, w4, MembersLayout(rest))
  }

  function ItemsLayout(t: Items): Items {
    var item := Item(Layout(t.item.value), t.item.w1);
    match t
    case LastItem(_) => LastItem(item)
    case MoreItems(_, w2, rest) => MoreItems(item, w2, ItemsLayout(rest))
  }

  /** The two documents are the same text but for scalar tokens. */
  ghost predicate SameLayout(d: Document, e: Document) {
    d.before == e.before && d.after == e.after && Layout(d.root) == Layout(e.root)
  }

  lemma {:induction false} PutKeepsLayout(n: Node, path: Path, token: Scalar)
    ensures Layout(Put(n, path, token)) == Layout(n)
    decreases n
  {
    match n
    case Object(_, members) => if path != [] && path[0].K? { PutKeepsMembers(members, path[0].key, path[1..], token); }
    case Array(_, items) => if path != [] && path[0].I? { PutKeepsItems(items, path[0].index, path[1..], token); }
    case _ =>
  }

  lemma {:induction false} PutKeepsMembers(m: Members, key: Codes, path: Path, token: Scalar)
    ensures MembersLayout(PutMember(m, key, path, token)) == MembersLayout(m)
    decreases m
  {
    if m.member.name.key == key {
      PutKeepsLayout(m.member.value, path, token);
    } else if m.MoreMembers? {
      PutKeepsMembers(m.rest, key, path, token);
    }
  }

  lemma {:induction false} PutKeepsItems(t: Items, index: nat, path: Path, token: Scalar)
    ensures ItemsLayout(PutItem(t, index, path, token)) == ItemsLayout(t)
    decreases t
  {
    if index == 0 {
      PutKeepsLayout(t.item.value, path, token);
    } else if t.MoreItems? {
      PutKeepsItems(t.rest, index - 1, path, token);
    }
  }

  // ----- the promise

  /** Owned fields read as the value, all others as before, and nothing but scalars has changed. */
  ghost predicate IsEdit(before: Data, declaration: Declaration, value: Projection, after: Data) {
    && Skeleton(after) == Skeleton(before)
    && (forall p :: IsOwned(before, declaration, p) ==>
          Get(before, p).Some? && Get(after, p).Some? && ReadsAs(Get(after, p).value, Get(before, p).value, value))
    && (forall p :: !IsOwned(before, declaration, p) ==> Get(after, p) == Get(before, p))
  }

  /** The edit succeeds exactly on a document of the declared package whose owned fields take the value. */
  ghost predicate CanEdit(raw: string, declaration: Declaration, value: Projection) {
    var d := ParseDocument(raw);
    && d.Some? && IsOwner(DataOf(d.value.root), declaration)
    && forall p :: IsOwned(DataOf(d.value.root), declaration, p) ==> Takes(Get(DataOf(d.value.root), p), value)
  }

  /** Every owned field reads as the value already. */
  ghost predicate IsCurrent(d: Data, declaration: Declaration, value: Projection) {
    forall p :: IsOwned(d, declaration, p) ==> Get(d, p).Some? && ReadsAs(Get(d, p).value, Get(d, p).value, value)
  }

  ghost predicate EditPromise(raw: string, declaration: Declaration, value: Projection, out: Option<string>) {
    && (out.Some? <==> CanEdit(raw, declaration, value))
    && (out.Some? ==>
          var d, d' := ParseDocument(raw).value, ParseDocument(out.value);
          && d'.Some? && SameLayout(d, d'.value) && IsEdit(DataOf(d.root), declaration, value, DataOf(d'.value.root))
          && (IsCurrent(DataOf(d.root), declaration, value) ==> out.value == raw))
  }

  /** The values of the owned fields in the order of their declaration, as read before the edit. */
  ghost predicate WereRead(d: Data, declaration: Declaration, previous: seq<Scalar>) {
    match declaration
    case Manifest(field, _) => |previous| == 1 && Get(d, field) == Some(previous[0])
    case NpmLock(_) =>
      && |previous| == (if Has(d, "packages") then 2 else 1) && Get(d, [Key("version")]) == Some(previous[0])
      && (|previous| == 2 ==> Get(d, [Key("packages"), Key(""), Key("version")]) == Some(previous[1]))
  }

  // ----- names are found once

  ghost predicate NamesDiffer(fields: seq<Field>) {
    forall i, j :: 0 <= i < j < |fields| ==> fields[i].name != fields[j].name
  }

  /** Replacing a scalar leaves the skeleton as it is. */
  lemma {:induction false} PutKeepsSkeleton(d: Data, path: Path, token: Scalar)
    ensures Skeleton(PutData(d, path, token)) == Skeleton(d)
    decreases d, |path|
  {
    match d
    case Atom(_) =>
    case Obj(fields) => if path != [] && path[0].K? { PutKeepsFields(fields, path[0].key, path[1..], token); }
    case Arr(elements) => if path != [] && path[0].I? { PutKeepsElements(elements, path[0].index, path[1..], token); }
  }

  lemma {:induction false} PutKeepsFields(fields: seq<Field>, key: Codes, path: Path, token: Scalar)
    ensures FieldSkeletons(PutField(fields, key, path, token)) == FieldSkeletons(fields)
    decreases fields, |path|
  {
    if fields != [] {
      if fields[0].name == key {
        PutKeepsSkeleton(fields[0].value, path, token);
        assert PutField(fields, key, path, token)[1..] == fields[1..];
      } else {
        PutKeepsFields(fields[1..], key, path, token);
        assert PutField(fields, key, path, token)[1..] == PutField(fields[1..], key, path, token);
      }
    }
  }

  lemma {:induction false} PutKeepsElements(elements: seq<Data>, index: nat, path: Path, token: Scalar)
    ensures Skeletons(PutElement(elements, index, path, token)) == Skeletons(elements)
    decreases elements, |path|
  {
    if elements != [] {
      if index == 0 {
        PutKeepsSkeleton(elements[0], path, token);
        assert PutElement(elements, index, path, token)[1..] == elements[1..];
      } else {
        PutKeepsElements(elements[1..], index - 1, path, token);
        assert PutElement(elements, index, path, token)[1..] == PutElement(elements[1..], index - 1, path, token);
      }
    }
  }
}
