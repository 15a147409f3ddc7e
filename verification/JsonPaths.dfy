/**
 Replacing scalars in place: each scalar has a path and a span in the text, the spans are disjoint, and
 splicing new tokens from the last span to the first gives a text that parses to the same document with
 only those scalars replaced.
 */
module JsonPaths {
  import opened Basics
  import opened JsonStrings
  import opened JsonSyntax
  import opened JsonRoundTrip

  /** A step is a name as it reads, or an index. */
  datatype Step = K(key: Codes) | I(index: nat)

  type Path = seq<Step>

  /** The data a document stands for; an object keeps its members in text order. */
  datatype Data = Atom(token: Scalar) | Obj(fields: seq<Field>) | Arr(elements: seq<Data>)

  datatype Field = Field(name: Codes, value: Data)

  function DataOf(n: Node): Data {
    match n
    case Leaf(token) => Atom(token)
    case EmptyObject(_) => Obj([])
    case Object(_, members) => Obj(MembersData(members))
    case EmptyArray(_) => Arr([])
    case Array(_, items) => Arr(ItemsData(items))
  }

  function MembersData(m: Members): seq<Field> {
    [Field(m.member.name.key, DataOf(m.member.value))] + if m.LastMember? then [] else MembersData(m.rest)
  }

  function ItemsData(t: Items): seq<Data> {
    [DataOf(t.item.value)] + if t.LastItem? then [] else ItemsData(t.rest)
  }

  // ----- the scalar at a path, and the text around it

  datatype Place = Place(before: string, token: Scalar, after: string)

  function Within(left: string, p: Option<Place>, right: string): Option<Place> {
    if p.None? then None else Some(Place(left + p.value.before, p.value.token, p.value.after + right))
  }

  function At(n: Node, path: Path): Option<Place> {
    match n
    case Leaf(token) => if path == [] then Some(Place("", token, "")) else None
    case Object(inside, members) =>
      if path != [] && path[0].K? then Within(['{'] + inside, AtMember(members, path[0].key, path[1..]), "") else None
    case Array(inside, items) =>
      if path != [] && path[0].I? then Within(['['] + inside, AtItem(items, path[0].index, path[1..]), "") else None
    case _ => None
  }

  function Head(m: Member): string { Quoted(m.name.raw) + m.w1 + [':'] + m.w2 }

  function Tail(m: Members): string { if m.LastMember? then ['}'] else [','] + m.w4 + MembersText(m.rest) }

  function AtMember(m: Members, key: Codes, path: Path): Option<Place> {
    if m.member.name.key == key then Within(Head(m.member), At(m.member.value, path), m.member.w3 + Tail(m))
    else if m.LastMember? then None
    else Within(MemberText(m.member) + [','] + m.w4, AtMember(m.rest, key, path), "")
  }

  function ItemTail(t: Items): string { if t.LastItem? then [']'] else [','] + t.w2 + ItemsText(t.rest) }

  function AtItem(t: Items, index: nat, path: Path): Option<Place> {
    if index == 0 then Within("", At(t.item.value, path), t.item.w1 + ItemTail(t))
    else if t.LastItem? then None
    else Within(ItemText(t.item) + [','] + t.w2, AtItem(t.rest, index - 1, path), "")
  }

  function Put(n: Node, path: Path, token: Scalar): Node {
    match n
    case Leaf(_) => if path == [] then Leaf(token) else n
    case Object(inside, members) =>
      if path != [] && path[0].K? then Object(inside, PutMember(members, path[0].key, path[1..], token)) else n
    case Array(inside, items) =>
      if path != [] && path[0].I? then Array(inside, PutItem(items, path[0].index, path[1..], token)) else n
    case _ => n
  }

  function PutMember(m: Members, key: Codes, path: Path, token: Scalar): Members {
    if m.member.name.key == key then m.(member := m.member.(value := Put(m.member.value, path, token)))
    else if m.LastMember? then m
    else m.(rest := PutMember(m.rest, key, path, token))
  }

  function PutItem(t: Items, index: nat, path: Path, token: Scalar): Items {
    if index == 0 then t.(item := t.item.(value := Put(t.item.value, path, token)))
    else if t.LastItem? then t
    else t.(rest := PutItem(t.rest, index - 1, path, token))
  }

  /** The same replacement in the data. */
  function PutData(d: Data, path: Path, token: Scalar): Data {
    match d
    case Atom(_) => if path == [] then Atom(token) else d
    case Obj(fields) => if path != [] && path[0].K? then Obj(PutField(fields, path[0].key, path[1..], token)) else d
    case Arr(elements) => if path != [] && path[0].I? then Arr(PutElement(elements, path[0].index, path[1..], token)) else d
  }

  function PutField(fields: seq<Field>, key: Codes, path: Path, token: Scalar): seq<Field> {
    if fields == [] then []
    else if fields[0].name == key then [Field(key, PutData(fields[0].value, path, token))] + fields[1..]
    else [fields[0]] + PutField(fields[1..], key, path, token)
  }

  function PutElement(elements: seq<Data>, index: nat, path: Path, token: Scalar): seq<Data> {
    if elements == [] then []
    else if index == 0 then [PutData(elements[0], path, token)] + elements[1..]
    else [elements[0]] + PutElement(elements[1..], index - 1, path, token)
  }

  // ----- what a replacement does to the text, the tree and the data

  lemma Shift(left: string, p: Place, token: Scalar, right: string)
    ensures left + (p.before + TokenText(token) + p.after) + right == (left + p.before) + TokenText(token) + (p.after + right)
  {
  }

  lemma {:induction false} PutText(n: Node, path: Path, token: Scalar)
    requires At(n, path).Some?
    ensures var p := At(n, path).value; Text(Put(n, path, token)) == p.before + TokenText(token) + p.after
    decreases n
  {
    hide AtMember, AtItem, TokenText, PutMember, PutItem;
    match n
    case Leaf(_) =>
    case Object(inside, members) =>
      PutMemberText(members, path[0].key, path[1..], token);
      Shift(['{'] + inside, AtMember(members, path[0].key, path[1..]).value, token, "");
    case Array(inside, items) =>
      PutItemText(items, path[0].index, path[1..], token);
      Shift(['['] + inside, AtItem(items, path[0].index, path[1..]).value, token, "");
  }

  lemma {:induction false} MembersPieces(m: Members)
    ensures MembersText(m) == Head(m.member) + Text(m.member.value) + (m.member.w3 + Tail(m))
    ensures m.MoreMembers? ==> MembersText(m) == MemberText(m.member) + [','] + m.w4 + MembersText(m.rest)
  {
  }

  lemma {:induction false} ItemsPieces(t: Items)
    ensures ItemsText(t) == "" + Text(t.item.value) + (t.item.w1 + ItemTail(t))
    ensures t.MoreItems? ==> ItemsText(t) == ItemText(t.item) + [','] + t.w2 + ItemsText(t.rest)
  {
    Regroup("" + Text(t.item.value), t.item.w1, ItemTail(t));
    if t.MoreItems? {
      Regroup(ItemText(t.item), [','] + t.w2, ItemsText(t.rest));
      Regroup(ItemText(t.item), [','], t.w2);
    }
  }

  lemma {:induction false} PutMemberText(m: Members, key: Codes, path: Path, token: Scalar)
    requires AtMember(m, key, path).Some?
    ensures var p := AtMember(m, key, path).value; MembersText(PutMember(m, key, path, token)) == p.before + TokenText(token) + p.after
    decreases m
  {
    MembersPieces(PutMember(m, key, path, token));
    if m.member.name.key == key {
      PutText(m.member.value, path, token);
      Shift(Head(m.member), At(m.member.value, path).value, token, m.member.w3 + Tail(m));
    } else {
      PutMemberText(m.rest, key, path, token);
      Shift(MemberText(m.member) + [','] + m.w4, AtMember(m.rest, key, path).value, token, "");
    }
  }

  lemma {:induction false} PutItemText(t: Items, index: nat, path: Path, token: Scalar)
    requires AtItem(t, index, path).Some?
    ensures var p := AtItem(t, index, path).value; ItemsText(PutItem(t, index, path, token)) == p.before + TokenText(token) + p.after
    decreases t
  {
    ItemsPieces(PutItem(t, index, path, token));
    if index == 0 {
      PutText(t.item.value, path, token);
      Shift("", At(t.item.value, path).value, token, t.item.w1 + ItemTail(t));
    } else {
      PutItemText(t.rest, index - 1, path, token);
      Shift(ItemText(t.item) + [','] + t.w2, AtItem(t.rest, index - 1, path).value, token, "");
    }
  }

  /** Putting back what is there changes nothing. */
  lemma {:induction false} PutSame(n: Node, path: Path)
    requires At(n, path).Some?
    ensures Put(n, path, At(n, path).value.token) == n
    decreases n
  {
    match n
    case Leaf(_) =>
    case Object(_, members) => PutMemberSame(members, path[0].key, path[1..]);
    case Array(_, items) => PutItemSame(items, path[0].index, path[1..]);
  }

  lemma {:induction false} PutMemberSame(m: Members, key: Codes, path: Path)
    requires AtMember(m, key, path).Some?
    ensures PutMember(m, key, path, AtMember(m, key, path).value.token) == m
    decreases m
  {
    if m.member.name.key == key {
      PutSame(m.member.value, path);
    } else {
      PutMemberSame(m.rest, key, path);
    }
  }

  lemma {:induction false} PutItemSame(t: Items, index: nat, path: Path)
    requires AtItem(t, index, path).Some?
    ensures PutItem(t, index, path, AtItem(t, index, path).value.token) == t
    decreases t
  {
    if index == 0 {
      PutSame(t.item.value, path);
    } else {
      PutItemSame(t.rest, index - 1, path);
    }
  }

  lemma {:induction false} PutOk(n: Node, path: Path, token: Scalar)
    requires NodeOk(n) && TokenOk(token)
    ensures NodeOk(Put(n, path, token))
    decreases n
  {
    match n
    case Object(_, members) =>
      if path != [] && path[0].K? { PutMemberOk(members, path[0].key, path[1..], token, {}); }
    case Array(_, items) =>
      if path != [] && path[0].I? { PutItemOk(items, path[0].index, path[1..], token); }
    case _ =>
  }

  lemma {:induction false} PutMemberOk(m: Members, key: Codes, path: Path, token: Scalar, before: set<Codes>)
    requires MembersOk(m, before) && TokenOk(token)
    ensures MembersOk(PutMember(m, key, path, token), before)
    decreases m
  {
    if m.member.name.key == key {
      PutOk(m.member.value, path, token);
    } else if m.MoreMembers? {
      PutMemberOk(m.rest, key, path, token, before + {m.member.name.key});
    }
  }

  lemma {:induction false} PutItemOk(t: Items, index: nat, path: Path, token: Scalar)
    requires ItemsOk(t) && TokenOk(token)
    ensures ItemsOk(PutItem(t, index, path, token))
    decreases t
  {
    if index == 0 {
      PutOk(t.item.value, path, token);
    } else if t.MoreItems? {
      PutItemOk(t.rest, index - 1, path, token);
    }
  }

  lemma {:induction false} PutIsPutData(n: Node, path: Path, token: Scalar)
    ensures DataOf(Put(n, path, token)) == PutData(DataOf(n), path, token)
    decreases n
  {
    match n
    case Object(_, members) =>
      if path != [] && path[0].K? { PutIsPutField(members, path[0].key, path[1..], token); }
    case Array(_, items) =>
      if path != [] && path[0].I? { PutIsPutElement(items, path[0].index, path[1..], token); }
    case _ =>
  }

  lemma {:induction false} PutIsPutField(m: Members, key: Codes, path: Path, token: Scalar)
    ensures MembersData(PutMember(m, key, path, token)) == PutField(MembersData(m), key, path, token)
    decreases m
  {
    assert MembersData(m)[1..] == if m.LastMember? then [] else MembersData(m.rest);
    if m.member.name.key == key {
      PutIsPutData(m.member.value, path, token);
    } else if m.MoreMembers? {
      PutIsPutField(m.rest, key, path, token);
    }
  }

  lemma {:induction false} PutIsPutElement(t: Items, index: nat, path: Path, token: Scalar)
    ensures ItemsData(PutItem(t, index, path, token)) == PutElement(ItemsData(t), index, path, token)
    decreases t
  {
    assert ItemsData(t)[1..] == if t.LastItem? then [] else ItemsData(t.rest);
    if index == 0 {
      PutIsPutData(t.item.value, path, token);
    } else if t.MoreItems? {
      PutIsPutElement(t.rest, index - 1, path, token);
    }
  }

  // ----- the scalar at a path of the data

  /** The scalar at a path of the data. */
  function Get(d: Data, path: Path): Option<Scalar> {
    match d
    case Atom(token) => if path == [] then Some(token) else None
    case Obj(fields) => if path != [] && path[0].K? then GetField(fields, path[0].key, path[1..]) else None
    case Arr(elements) =>
      if path != [] && path[0].I? && path[0].index < |elements| then Get(elements[path[0].index], path[1..]) else None
  }

  function GetField(fields: seq<Field>, key: Codes, path: Path): Option<Scalar> {
    if fields == [] then None
    else if fields[0].name == key then Get(fields[0].value, path)
    else GetField(fields[1..], key, path)
  }

  /** A replacement sets the scalar at its own path and no other. */
  lemma {:induction false} GetAfterPut(d: Data, p: Path, token: Scalar, q: Path)
    ensures Get(PutData(d, p, token), q) == if q == p && Get(d, p).Some? then Some(token) else Get(d, q)
    decreases |p|, 0
  {
    if d.Obj? && p != [] && q != [] && p[0].K? && q[0].K? {
      assert p == [p[0]] + p[1..] && q == [q[0]] + q[1..];
      GetAfterPutField(d.fields, p[0].key, p[1..], token, q[0].key, q[1..]);
    } else if d.Arr? && p != [] && q != [] && p[0].I? && q[0].I? {
      assert p == [p[0]] + p[1..] && q == [q[0]] + q[1..];
      PutElementAt(d.elements, p[0].index, p[1..], token);
      if p[0].index == q[0].index < |d.elements| {
        GetAfterPut(d.elements[p[0].index], p[1..], token, q[1..]);
      }
    }
  }

  lemma {:induction false} GetAfterPutField(f: seq<Field>, k: Codes, p: Path, token: Scalar, l: Codes, q: Path)
    ensures GetField(PutField(f, k, p, token), l, q) ==
      if k == l && q == p && GetField(f, k, p).Some? then Some(token) else GetField(f, l, q)
    decreases |p|, 1 + |f|
  {
    if f != [] {
      if f[0].name == k {
        GetAfterPut(f[0].value, p, token, q);
      } else {
        GetAfterPutField(f[1..], k, p, token, l, q);
      }
    }
  }

  lemma {:induction false} PutElementAt(f: seq<Data>, i: nat, p: Path, token: Scalar)
    ensures |PutElement(f, i, p, token)| == |f|
    ensures forall j :: 0 <= j < |f| ==> PutElement(f, i, p, token)[j] == if j == i then PutData(f[j], p, token) else f[j]
    decreases |f|
  {
    if f != [] && i > 0 {
      PutElementAt(f[1..], i - 1, p, token);
    }
  }

  /** Data and text have their scalars at the same paths. */
  lemma {:induction false} GetIsAt(n: Node, path: Path)
    ensures Get(DataOf(n), path) == if At(n, path).Some? then Some(At(n, path).value.token) else None
    decreases n
  {
    match n {
      case Object(_, members) =>
        if path != [] && path[0].K? {
          GetIsAtMember(members, path[0].key, path[1..]);
        }
      case Array(_, items) =>
        if path != [] && path[0].I? {
          GetIsAtItem(items, path[0].index, path[1..]);
        }
      case _ =>
    }
  }

  lemma {:induction false} GetIsAtMember(m: Members, key: Codes, path: Path)
    ensures GetField(MembersData(m), key, path) == if AtMember(m, key, path).Some? then Some(AtMember(m, key, path).value.token) else None
    decreases m
  {
    assert m.LastMember? ==> MembersData(m)[1..] == [];
    assert m.MoreMembers? ==> MembersData(m)[1..] == MembersData(m.rest);
    if m.member.name.key == key {
      GetIsAt(m.member.value, path);
    } else if m.MoreMembers? {
      GetIsAtMember(m.rest, key, path);
    }
  }

  lemma {:induction false} GetIsAtItem(t: Items, index: nat, path: Path)
    ensures (if index < |ItemsData(t)| then Get(ItemsData(t)[index], path) else None) ==
      if AtItem(t, index, path).Some? then Some(AtItem(t, index, path).value.token) else None
    decreases t
  {
    if index == 0 {
      GetIsAt(t.item.value, path);
    } else if t.MoreItems? {
      GetIsAtItem(t.rest, index - 1, path);
    }
  }

  // ----- two paths never overlap

  function Start(p: Place): nat { |p.before| }
  function End(p: Place): nat { |p.before| + |TokenText(p.token)| }

  /** `q` ends before `p` starts, and replacing the scalar at `p` leaves the place of `q` as it was. */
  ghost predicate Ahead(q: Option<Place>, p: Option<Place>, q': Option<Place>) {
    q.Some? && p.Some? && End(q.value) <= Start(p.value)
    && q'.Some? && q'.value.before == q.value.before && q'.value.token == q.value.token
  }

  ghost predicate Apart(n: Node, p: Path, q: Path, s: Scalar, t: Scalar) {
    || Ahead(At(n, q), At(n, p), At(Put(n, p, s), q))
    || Ahead(At(n, p), At(n, q), At(Put(n, q, t), p))
  }

  lemma FirstOrRest(p: Path, q: Path)
    requires p != q && p != [] && q != []
    ensures p[0] != q[0] || p[1..] != q[1..]
  {
    assert p == [p[0]] + p[1..] && q == [q[0]] + q[1..];
  }

  lemma {:induction false} PathsApart(n: Node, p: Path, q: Path, s: Scalar, t: Scalar)
    requires p != q && At(n, p).Some? && At(n, q).Some?
    ensures Apart(n, p, q, s, t)
    decreases n
  {
    hide AtMember, AtItem, PutMember, PutItem, TokenText;
    match n
    case Leaf(_) =>
    case Object(_, members) =>
      FirstOrRest(p, q);
      MembersApart(members, p[0].key, p[1..], q[0].key, q[1..], s, t);
    case Array(_, items) =>
      FirstOrRest(p, q);
      ItemsApart(items, p[0].index, p[1..], q[0].index, q[1..], s, t);
  }

  /** The scalar lies inside the text. */
  lemma {:induction false} PlaceInside(n: Node, p: Path)
    requires At(n, p).Some?
    ensures var v := At(n, p).value; Text(n) == v.before + TokenText(v.token) + v.after
  {
    PutSame(n, p);
    PutText(n, p, At(n, p).value.token);
  }

  lemma {:induction false} MembersApart(m: Members, k: Codes, p: Path, l: Codes, q: Path, s: Scalar, t: Scalar)
    requires (k != l || p != q) && AtMember(m, k, p).Some? && AtMember(m, l, q).Some?
    ensures || Ahead(AtMember(m, l, q), AtMember(m, k, p), AtMember(PutMember(m, k, p, s), l, q))
            || Ahead(AtMember(m, k, p), AtMember(m, l, q), AtMember(PutMember(m, l, q, t), k, p))
    decreases m
  {
    hide At, Put, TokenText;
    if m.member.name.key == k && m.member.name.key == l {
      PathsApart(m.member.value, p, q, s, t);
    } else if m.member.name.key == k {
      PlaceInside(m.member.value, p);
    } else if m.member.name.key == l {
      PlaceInside(m.member.value, q);
    } else {
      MembersApart(m.rest, k, p, l, q, s, t);
    }
  }

  lemma {:induction false} ItemsApart(m: Items, i: nat, p: Path, j: nat, q: Path, s: Scalar, t: Scalar)
    requires (i != j || p != q) && AtItem(m, i, p).Some? && AtItem(m, j, q).Some?
    ensures || Ahead(AtItem(m, j, q), AtItem(m, i, p), AtItem(PutItem(m, i, p, s), j, q))
            || Ahead(AtItem(m, i, p), AtItem(m, j, q), AtItem(PutItem(m, j, q, t), i, p))
    decreases m
  {
    hide At, Put, TokenText, ItemsText, Text;
    if i == 0 && j == 0 {
      PathsApart(m.item.value, p, q, s, t);
    } else if i == 0 {
      PlaceInside(m.item.value, p);
    } else if j == 0 {
      PlaceInside(m.item.value, q);
    } else {
      ItemsApart(m.rest, i - 1, p, j - 1, q, s, t);
    }
  }
}
