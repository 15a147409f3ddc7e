/**
 The parser as it runs: an index over the text, and a table of the span of every scalar by its path. It
 accepts what the grammar accepts, and the table holds exactly the scalars of the document where they stand.
 */
module JsonDocument {
  import opened Basics
  import opened JsonStrings
  import opened JsonSyntax
  import opened JsonRoundTrip
  import opened JsonPaths

  type Spans = map<Path, (nat, nat)>

  // ----- the spans of a tree whose text begins at `at`

  function SpansOf(n: Node, at: nat, path: Path): Spans {
    match n
    case Leaf(token) => map[path := (at, at + |TokenText(token)|)]
    case Object(inside, members) => MembersSpans(members, at + 1 + |inside|, path)
    case Array(inside, items) => ItemsSpans(items, at + 1 + |inside|, path, 0)
    case _ => map[]
  }

  function MembersSpans(m: Members, at: nat, path: Path): Spans {
    var here := SpansOf(m.member.value, at + |Head(m.member)|, path + [K(m.member.name.key)]);
    if m.LastMember? then here else here + MembersSpans(m.rest, at + |MemberText(m.member)| + 1 + |m.w4|, path)
  }

  function ItemsSpans(t: Items, at: nat, path: Path, count: nat): Spans {
    var here := SpansOf(t.item.value, at, path + [I(count)]);
    if t.LastItem? then here else here + ItemsSpans(t.rest, at + |ItemText(t.item)| + 1 + |t.w2|, path, count + 1)
  }

  function KeysOf(m: Members): set<Codes> {
    {m.member.name.key} + if m.LastMember? then {} else KeysOf(m.rest)
  }

  lemma {:induction false} SpansUnder(n: Node, at: nat, path: Path)
    ensures forall q :: q in SpansOf(n, at, path) ==> path <= q
    decreases n
  {
    match n
    case Object(inside, members) => MembersUnder(members, at + 1 + |inside|, path);
    case Array(inside, items) => ItemsUnder(items, at + 1 + |inside|, path, 0);
    case _ =>
  }

  lemma {:induction false} MembersUnder(m: Members, at: nat, path: Path)
    ensures forall q :: q in MembersSpans(m, at, path) ==> path < q && q[|path|].K? && q[|path|].key in KeysOf(m)
    decreases m
  {
    SpansUnder(m.member.value, at + |Head(m.member)|, path + [K(m.member.name.key)]);
    if m.MoreMembers? {
      MembersUnder(m.rest, at + |MemberText(m.member)| + 1 + |m.w4|, path);
    }
  }

  lemma {:induction false} ItemsUnder(t: Items, at: nat, path: Path, count: nat)
    ensures forall q :: q in ItemsSpans(t, at, path, count) ==> path < q && q[|path|].I? && q[|path|].index >= count
    decreases t
  {
    SpansUnder(t.item.value, at, path + [I(count)]);
    if t.MoreItems? {
      ItemsUnder(t.rest, at + |ItemText(t.item)| + 1 + |t.w2|, path, count + 1);
    }
  }

  /** The entry of a table for a place that lies `at` characters into the text. */
  ghost predicate Records(spans: Spans, q: Path, at: nat, p: Option<Place>) {
    (q in spans <==> p.Some?) && (q in spans ==> spans[q] == (at + Start(p.value), at + End(p.value)))
  }

  lemma {:induction false} KeysAreNew(m: Members, before: set<Codes>)
    requires MembersOk(m, before)
    ensures KeysOf(m) !! before
    decreases m
  {
    if m.MoreMembers? {
      KeysAreNew(m.rest, before + {m.member.name.key});
    }
  }

  lemma RecordsMoved(spans: Spans, q: Path, at: nat, left: string, p: Option<Place>, right: string)
    requires Records(spans, q, at + |left|, p)
    ensures Records(spans, q, at, Within(left, p, right))
  {
  }

  /** Of two tables put together only one has the path. */
  lemma RecordsJoin(here: Spans, rest: Spans, q: Path, at: nat, p: Option<Place>)
    requires (q !in rest && Records(here, q, at, p)) || (q !in here && Records(rest, q, at, p))
    ensures Records(here + rest, q, at, p)
  {
  }

  /** The table records, at each path, the place of its scalar, and no other path. */
  lemma {:induction false} SpansArePlaces(n: Node, at: nat, path: Path, q: Path)
    requires NodeOk(n)
    ensures Records(SpansOf(n, at, path), path + q, at, At(n, q))
    decreases n, 1
  {
    hide MembersSpans, ItemsSpans, AtMember, AtItem, TokenText;
    match n {
      case Leaf(token) =>
        assert path + q == path <==> q == [];
      case Object(inside, members) =>
        if q != [] && q[0].K? {
          assert path + q == path + [K(q[0].key)] + q[1..];
          MemberSpanAt(members, at + 1 + |inside|, path, q[0].key, q[1..], {});
          RecordsMoved(SpansOf(n, at, path), path + q, at, ['{'] + inside, AtMember(members, q[0].key, q[1..]), "");
        } else {
          MembersUnder(members, at + 1 + |inside|, path);
          assert q != [] ==> (path + q)[|path|] == q[0];
        }
      case Array(inside, items) =>
        if q != [] && q[0].I? {
          assert path + q == path + [I(q[0].index)] + q[1..];
          ItemSpanAt(items, at + 1 + |inside|, path, 0, q[0].index, q[1..]);
          RecordsMoved(SpansOf(n, at, path), path + q, at, ['['] + inside, AtItem(items, q[0].index, q[1..]), "");
        } else {
          ItemsUnder(items, at + 1 + |inside|, path, 0);
          assert q != [] ==> (path + q)[|path|] == q[0];
        }
      case _ =>
    }
  }

  lemma {:induction false} MemberSpanAt(m: Members, at: nat, path: Path, key: Codes, q: Path, before: set<Codes>)
    requires MembersOk(m, before)
    ensures Records(MembersSpans(m, at, path), path + [K(key)] + q, at, AtMember(m, key, q))
    decreases m, 1
  {
    hide SpansOf, At, NodeOk, Records;
    var full := path + [K(key)] + q;
    assert full[|path|] == K(key);
    var here := SpansOf(m.member.value, at + |Head(m.member)|, path + [K(m.member.name.key)]);
    if m.member.name.key == key {
      SpansArePlaces(m.member.value, at + |Head(m.member)|, path + [K(key)], q);
      RecordsMoved(here, full, at, Head(m.member), At(m.member.value, q), m.member.w3 + Tail(m));
    } else {
      NotUnder(m.member.value, at + |Head(m.member)|, path, K(m.member.name.key), full);
    }
    if m.MoreMembers? {
      LaterMembers(m, at, path, key, q, before, full);
      var rest := MembersSpans(m.rest, at + |MemberText(m.member)| + 1 + |m.w4|, path);
      RecordsJoin(here, rest, full, at, AtMember(m, key, q));
    } else if m.member.name.key != key {
      NotRecorded(here, full, at);
    }
  }

  lemma NotRecorded(spans: Spans, q: Path, at: nat)
    requires q !in spans
    ensures Records(spans, q, at, None)
  {
  }

  /** The members after the first record the path exactly when it goes through one of them. */
  lemma {:induction false} LaterMembers(m: Members, at: nat, path: Path, key: Codes, q: Path, before: set<Codes>, full: Path)
    requires m.MoreMembers? && MembersOk(m, before) && full == path + [K(key)] + q && full[|path|] == K(key)
    ensures var rest := MembersSpans(m.rest, at + |MemberText(m.member)| + 1 + |m.w4|, path);
      if m.member.name.key == key then full !in rest else Records(rest, full, at, AtMember(m, key, q))
    decreases m, 0
  {
    hide MembersSpans, At, NodeOk, Records;
    var next := at + |MemberText(m.member)| + 1 + |m.w4|;
    if m.member.name.key == key {
      MembersUnder(m.rest, next, path);
      KeysAreNew(m.rest, before + {m.member.name.key});
    } else {
      MemberSpanAt(m.rest, next, path, key, q, before + {m.member.name.key});
      RecordsMoved(MembersSpans(m.rest, next, path), full, at, MemberText(m.member) + [','] + m.w4, AtMember(m.rest, key, q), "");
    }
  }

  lemma {:induction false} ItemSpanAt(t: Items, at: nat, path: Path, count: nat, index: nat, q: Path)
    requires ItemsOk(t)
    ensures Records(ItemsSpans(t, at, path, count), path + [I(count + index)] + q, at, AtItem(t, index, q))
    decreases t, 1
  {
    hide SpansOf, At, NodeOk, Records;
    var full := path + [I(count + index)] + q;
    assert full[|path|] == I(count + index);
    var here := SpansOf(t.item.value, at, path + [I(count)]);
    if index == 0 {
      SpansArePlaces(t.item.value, at, path + [I(count)], q);
      RecordsMoved(here, full, at, "", At(t.item.value, q), t.item.w1 + ItemTail(t));
    } else {
      NotUnder(t.item.value, at, path, I(count), full);
    }
    if t.MoreItems? {
      LaterItems(t, at, path, count, index, q, full);
      var rest := ItemsSpans(t.rest, at + |ItemText(t.item)| + 1 + |t.w2|, path, count + 1);
      RecordsJoin(here, rest, full, at, AtItem(t, index, q));
    } else if index > 0 {
      NotRecorded(here, full, at);
    }
  }

  lemma {:induction false} LaterItems(t: Items, at: nat, path: Path, count: nat, index: nat, q: Path, full: Path)
    requires t.MoreItems? && ItemsOk(t) && full == path + [I(count + index)] + q && full[|path|] == I(count + index)
    ensures var rest := ItemsSpans(t.rest, at + |ItemText(t.item)| + 1 + |t.w2|, path, count + 1);
      if index == 0 then full !in rest else Records(rest, full, at, AtItem(t, index, q))
    decreases t, 0
  {
    hide ItemsSpans, At, NodeOk, Records;
    var next := at + |ItemText(t.item)| + 1 + |t.w2|;
    if index == 0 {
      ItemsUnder(t.rest, next, path, count + 1);
    } else {
      ItemSpanAt(t.rest, next, path, count + 1, index - 1, q);
      RecordsMoved(ItemsSpans(t.rest, next, path, count + 1), full, at, ItemText(t.item) + [','] + t.w2, AtItem(t.rest, index - 1, q), "");
    }
  }

  /** What lies under one step is not recorded under another. */
  lemma {:induction false} NotUnder(n: Node, at: nat, path: Path, step: Step, full: Path)
    requires |full| > |path| && full[|path|] != step
    ensures full !in SpansOf(n, at, path + [step])
  {
    SpansUnder(n, at, path + [step]);
    assert (path + [step])[|path|] == step;
  }

  // ----- loops seen from their end: members and items already read, in front of those still to come

  function Wrapped(done: seq<(Member, string)>, m: Members): Members {
    if done == [] then m
    else
      var n := |done| - 1;
      Wrapped(done[..n], MoreMembers(done[n].0, done[n].1, m))
  }

  function WrappedItems(done: seq<(Item, string)>, t: Items): Items {
    if done == [] then t
    else
      var n := |done| - 1;
      WrappedItems(done[..n], MoreItems(done[n].0, done[n].1, t))
  }

  function Before(done: seq<(Member, string)>, p: Parsed<Members>): Parsed<Members> {
    if p.Failed? then Failed else Parsed(Wrapped(done, p.value), p.rest)
  }

  function BeforeItems(done: seq<(Item, string)>, p: Parsed<Items>): Parsed<Items> {
    if p.Failed? then Failed else Parsed(WrappedItems(done, p.value), p.rest)
  }

  /** Where the text continues after the members read, what they leave in the table, and their data. */
  function MembersEnd(done: seq<(Member, string)>, first: nat): nat {
    if done == [] then first
    else
      var n := |done| - 1;
      MembersEnd(done[..n], first) + |MemberText(done[n].0)| + 1 + |done[n].1|
  }

  function SpansRead(done: seq<(Member, string)>, first: nat, path: Path, before: Spans): Spans {
    if done == [] then before
    else
      var n := |done| - 1;
      var m := done[n].0;
      SpansRead(done[..n], first, path, before) + SpansOf(m.value, MembersEnd(done[..n], first) + |Head(m)|, path + [K(m.name.key)])
  }

  function FieldsRead(done: seq<(Member, string)>): seq<Field> {
    if done == [] then []
    else
      var n := |done| - 1;
      FieldsRead(done[..n]) + [Field(done[n].0.name.key, DataOf(done[n].0.value))]
  }

  function ItemsEnd(done: seq<(Item, string)>, first: nat): nat {
    if done == [] then first
    else
      var n := |done| - 1;
      ItemsEnd(done[..n], first) + |ItemText(done[n].0)| + 1 + |done[n].1|
  }

  function ItemSpansRead(done: seq<(Item, string)>, first: nat, path: Path, before: Spans): Spans {
    if done == [] then before
    else
      var n := |done| - 1;
      ItemSpansRead(done[..n], first, path, before) + SpansOf(done[n].0.value, ItemsEnd(done[..n], first), path + [I(n)])
  }

  function ElementsRead(done: seq<(Item, string)>): (d: seq<Data>)
    ensures |d| == |done|
  {
    if done == [] then []
    else
      var n := |done| - 1;
      ElementsRead(done[..n]) + [DataOf(done[n].0.value)]
  }

  lemma {:induction false} WrapOne(done: seq<(Member, string)>, m: Member, w: string, rest: Members)
    ensures Wrapped(done + [(m, w)], rest) == Wrapped(done, MoreMembers(m, w, rest))
  {
    assert (done + [(m, w)])[..|done|] == done;
  }

  lemma {:induction false} WrapOneItem(done: seq<(Item, string)>, i: Item, w: string, rest: Items)
    ensures WrappedItems(done + [(i, w)], rest) == WrappedItems(done, MoreItems(i, w, rest))
  {
    assert (done + [(i, w)])[..|done|] == done;
  }

  lemma {:induction false} WrappedSpans(done: seq<(Member, string)>, m: Members, first: nat, path: Path, before: Spans)
    ensures before + MembersSpans(Wrapped(done, m), first, path) ==
      SpansRead(done, first, path, before) + MembersSpans(m, MembersEnd(done, first), path)
  {
    hide SpansOf, MembersSpans, Head, MemberText;
    if done != [] {
      var n := |done| - 1;
      var (x, w) := done[n];
      WrappedSpans(done[..n], MoreMembers(x, w, m), first, path, before);
      MemberMoved(before + MembersSpans(Wrapped(done, m), first, path), SpansRead(done[..n], first, path, before),
        x, w, m, MembersEnd(done[..n], first), path);
    }
  }

  lemma {:induction false} MemberMoved(total: Spans, a: Spans, x: Member, w: string, m: Members, index: nat, path: Path)
    requires total == a + MembersSpans(MoreMembers(x, w, m), index, path)
    ensures total == (a + SpansOf(x.value, index + |Head(x)|, path + [K(x.name.key)])) + MembersSpans(m, index + |MemberText(x)| + 1 + |w|, path)
  {
    MembersStep(x, w, m, index, path);
    Chained(total, a, MembersSpans(MoreMembers(x, w, m), index, path), SpansOf(x.value, index + |Head(x)|, path + [K(x.name.key)]),
      MembersSpans(m, index + |MemberText(x)| + 1 + |w|, path));
  }

  lemma Chained(total: Spans, a: Spans, b: Spans, here: Spans, rest: Spans)
    requires total == a + b && b == here + rest
    ensures total == (a + here) + rest
  {
  }

  lemma {:induction false} WrappedData(done: seq<(Member, string)>, m: Members)
    ensures MembersData(Wrapped(done, m)) == FieldsRead(done) + MembersData(m)
  {
    if done != [] {
      var n := |done| - 1;
      WrappedData(done[..n], MoreMembers(done[n].0, done[n].1, m));
    }
  }

  lemma {:induction false} WrappedItemsData(done: seq<(Item, string)>, t: Items)
    ensures ItemsData(WrappedItems(done, t)) == ElementsRead(done) + ItemsData(t)
  {
    if done != [] {
      var n := |done| - 1;
      WrappedItemsData(done[..n], MoreItems(done[n].0, done[n].1, t));
    }
  }

  lemma {:induction false} WrappedItemSpans(done: seq<(Item, string)>, t: Items, first: nat, path: Path, before: Spans)
    ensures before + ItemsSpans(WrappedItems(done, t), first, path, 0) ==
      ItemSpansRead(done, first, path, before) + ItemsSpans(t, ItemsEnd(done, first), path, |done|)
  {
    hide SpansOf, ItemsSpans, ItemText;
    if done != [] {
      var n := |done| - 1;
      var (x, w) := done[n];
      WrappedItemSpans(done[..n], MoreItems(x, w, t), first, path, before);
      ItemMoved(before + ItemsSpans(WrappedItems(done, t), first, path, 0), ItemSpansRead(done[..n], first, path, before),
        x, w, t, ItemsEnd(done[..n], first), path, n);
    }
  }

  lemma {:induction false} ItemMoved(total: Spans, a: Spans, x: Item, w: string, t: Items, index: nat, path: Path, n: nat)
    requires total == a + ItemsSpans(MoreItems(x, w, t), index, path, n)
    ensures total == (a + SpansOf(x.value, index, path + [I(n)])) + ItemsSpans(t, index + |ItemText(x)| + 1 + |w|, path, n + 1)
  {
    ItemsStep(x, w, t, index, path, n);
    Chained(total, a, ItemsSpans(MoreItems(x, w, t), index, path, n), SpansOf(x.value, index, path + [I(n)]),
      ItemsSpans(t, index + |ItemText(x)| + 1 + |w|, path, n + 1));
  }

  /** What reading a node, a member or all members from `at` makes of the table. */
  ghost predicate NodeAdded(n: Node, at: nat, path: Path, before: Spans, after: Spans) {
    after == before + SpansOf(n, at, path)
  }

  ghost predicate MemberAdded(m: Member, at: nat, path: Path, before: Spans, after: Spans) {
    NodeAdded(m.value, at + |Head(m)|, path + [K(m.name.key)], before, after)
  }

  ghost predicate MembersAdded(m: Members, at: nat, path: Path, before: Spans, after: Spans) {
    after == before + MembersSpans(m, at, path)
  }

  ghost predicate ItemsAdded(t: Items, at: nat, path: Path, before: Spans, after: Spans) {
    after == before + ItemsSpans(t, at, path, 0)
  }

  /** What a parse of `p` from `at` must return and make of the table. */
  ghost predicate Outcome(text: string, p: Parsed<Node>, at: int, path: Path, before: Spans, after: Spans, r: Option<(Data, nat)>) {
    && (r.Some? <==> p.Parsed?)
    && (r.Some? ==>
          && r.value.0 == DataOf(p.value) && r.value.1 <= |text| && text[r.value.1..] == p.rest
          && at >= 0 && NodeAdded(p.value, at, path, before, after))
  }

  /** A scalar read from `at` to `end` is recorded there. */
  lemma ScalarOutcome(text: string, n: Parsed<Node>, p: Parsed<Scalar>, at: nat, end: nat, path: Path, before: Spans)
    requires at <= end <= |text| && p.Parsed? && end == at + |TokenText(p.value)| && text[end..] == p.rest
    requires n == Parsed(Leaf(p.value), p.rest)
    ensures Outcome(text, n, at, path, before, before[path := (at, end)], Some((Atom(p.value), end)))
  {
    LeafAdded(p.value, at, end, path, before);
  }

  lemma LeafAdded(token: Scalar, at: nat, end: nat, path: Path, before: Spans)
    requires end == at + |TokenText(token)|
    ensures NodeAdded(Leaf(token), at, path, before, before[path := (at, end)])
  {
  }

  lemma ScalarLies(text: string, at: nat, p: Parsed<Scalar>)
    requires at < |text| && p == LexScalar(text[at..]) && p.Parsed?
    ensures at + |TokenText(p.value)| == |text| - |p.rest| && text[|text| - |p.rest|..] == p.rest
  {
    hide LexScalar, TokenText, TokenOk;
    LexScalarSound(text[at..]);
    Lies(text, at, TokenText(p.value), p.rest);
  }

  lemma Lies(text: string, at: nat, head: string, rest: string)
    requires at <= |text| && text[at..] == head + rest
    ensures at + |head| == |text| - |rest| && text[|text| - |rest|..] == rest
  {
    assert text[at..][|head|..] == rest;
  }

  /** A member is done when its value is. */
  lemma MemberDone(text: string, n: Parsed<Node>, m: Member, key: Codes, start: nat, at: int, path: Path, before: Spans, after: Spans, r: Option<(Data, nat)>)
    requires r.Some? && n.Parsed? && n.value == m.value && m.name.key == key && start + |Head(m)| == at
    requires Outcome(text, n, at, path + [K(key)], before, after, r)
    ensures MemberAdded(m, start, path, before, after) && r.value.0 == DataOf(m.value) && r.value.1 <= |text| && text[r.value.1..] == n.rest
  {
  }

  lemma ObjectOutcome(text: string, n: Parsed<Node>, inside: string, p: Parsed<Members>, at: nat, path: Path, before: Spans, after: Spans, r: Option<(Data, nat)>)
    requires r.Some? <==> p.Parsed?
    requires r.Some? ==>
      && r.value.0 == Obj(MembersData(p.value)) && r.value.1 <= |text| && text[r.value.1..] == p.rest
      && MembersAdded(p.value, at + 1 + |inside|, path, before, after)
    requires n == if p.Failed? then Failed else Parsed(Object(inside, p.value), p.rest)
    ensures Outcome(text, n, at, path, before, after, r)
  {
  }

  lemma ArrayOutcome(text: string, n: Parsed<Node>, inside: string, p: Parsed<Items>, at: nat, path: Path, before: Spans, after: Spans, r: Option<(Data, nat)>)
    requires r.Some? <==> p.Parsed?
    requires r.Some? ==>
      && r.value.0 == Arr(ItemsData(p.value)) && r.value.1 <= |text| && text[r.value.1..] == p.rest
      && ItemsAdded(p.value, at + 1 + |inside|, path, before, after)
    requires n == if p.Failed? then Failed else Parsed(Array(inside, p.value), p.rest)
    ensures Outcome(text, n, at, path, before, after, r)
  {
  }

  /** The loop of an object, before its next member. */
  ghost predicate MembersRead(done: seq<(Member, string)>, first: nat, index: nat, path: Path, before: Spans, after: Spans, fields: seq<Field>) {
    index == MembersEnd(done, first) && after == SpansRead(done, first, path, before) && fields == FieldsRead(done)
  }

  ghost predicate ItemsRead(done: seq<(Item, string)>, first: nat, index: nat, path: Path, before: Spans, after: Spans, elements: seq<Data>) {
    index == ItemsEnd(done, first) && after == ItemSpansRead(done, first, path, before) && elements == ElementsRead(done)
  }

  lemma {:induction false} LastMemberRead(done: seq<(Member, string)>, m: Member, first: nat, index: nat, path: Path, start: Spans, before: Spans, after: Spans, fields: seq<Field>)
    requires MembersRead(done, first, index, path, start, before, fields) && MemberAdded(m, index, path, before, after)
    ensures MembersAdded(Wrapped(done, LastMember(m)), first, path, start, after)
    ensures MembersData(Wrapped(done, LastMember(m))) == fields + [Field(m.name.key, DataOf(m.value))]
  {
    WrappedSpans(done, LastMember(m), first, path, start);
    WrappedData(done, LastMember(m));
  }

  /** One more member read, with the comma and the space after it. */
  lemma {:induction false} OneMoreMember(done: seq<(Member, string)>, m: Member, w: string, first: nat, index: nat, path: Path, start: Spans, before: Spans, after: Spans, fields: seq<Field>)
    requires MembersRead(done, first, index, path, start, before, fields) && MemberAdded(m, index, path, before, after)
    ensures MembersRead(done + [(m, w)], first, index + |MemberText(m)| + 1 + |w|, path, start, after, fields + [Field(m.name.key, DataOf(m.value))])
  {
    MemberEnds(done, m, w, first);
    MoreSpans(done, m, w, first, path, start, before, after);
  }

  lemma {:induction false} MoreSpans(done: seq<(Member, string)>, m: Member, w: string, first: nat, path: Path, start: Spans, before: Spans, after: Spans)
    requires before == SpansRead(done, first, path, start) && MemberAdded(m, MembersEnd(done, first), path, before, after)
    ensures after == SpansRead(done + [(m, w)], first, path, start)
  {
    assert (done + [(m, w)])[..|done|] == done;
  }

  lemma {:induction false} MemberEnds(done: seq<(Member, string)>, m: Member, w: string, first: nat)
    ensures MembersEnd(done + [(m, w)], first) == MembersEnd(done, first) + |MemberText(m)| + 1 + |w|
    ensures FieldsRead(done + [(m, w)]) == FieldsRead(done) + [Field(m.name.key, DataOf(m.value))]
  {
    assert (done + [(m, w)])[..|done|] == done;
  }

  lemma {:induction false} LastItemRead(done: seq<(Item, string)>, i: Item, first: nat, index: nat, path: Path, start: Spans, before: Spans, after: Spans, elements: seq<Data>)
    requires ItemsRead(done, first, index, path, start, before, elements)
    requires NodeAdded(i.value, index, path + [I(|elements|)], before, after)
    ensures ItemsAdded(WrappedItems(done, LastItem(i)), first, path, start, after)
    ensures ItemsData(WrappedItems(done, LastItem(i))) == elements + [DataOf(i.value)]
  {
    WrappedItemSpans(done, LastItem(i), first, path, start);
    WrappedItemsData(done, LastItem(i));
  }

  lemma {:induction false} OneMoreItem(done: seq<(Item, string)>, i: Item, w: string, first: nat, index: nat, path: Path, start: Spans, before: Spans, after: Spans, elements: seq<Data>)
    requires ItemsRead(done, first, index, path, start, before, elements)
    requires NodeAdded(i.value, index, path + [I(|elements|)], before, after)
    ensures ItemsRead(done + [(i, w)], first, index + |ItemText(i)| + 1 + |w|, path, start, after, elements + [DataOf(i.value)])
  {
    assert (done + [(i, w)])[..|done|] == done;
  }

  lemma {:induction false} MembersStep(m: Member, w: string, rest: Members, index: nat, path: Path)
    ensures MembersSpans(MoreMembers(m, w, rest), index, path) ==
      SpansOf(m.value, index + |Head(m)|, path + [K(m.name.key)]) + MembersSpans(rest, index + |MemberText(m)| + 1 + |w|, path)
    ensures MembersData(MoreMembers(m, w, rest)) == [Field(m.name.key, DataOf(m.value))] + MembersData(rest)
  {
  }

  lemma {:induction false} ItemsStep(i: Item, w: string, rest: Items, index: nat, path: Path, count: nat)
    ensures ItemsSpans(MoreItems(i, w, rest), index, path, count) ==
      SpansOf(i.value, index, path + [I(count)]) + ItemsSpans(rest, index + |ItemText(i)| + 1 + |w|, path, count + 1)
    ensures ItemsData(MoreItems(i, w, rest)) == [DataOf(i.value)] + ItemsData(rest)
  {
  }

  // ----- the grammar's functions, one step at a time

  function MemberFrom(name: Name, r0: string, r1: string, value: Parsed<Node>): Parsed<Member>
    requires r1 != ""
  {
    if value.Failed? then Failed
    else Parsed(Member(name, Skipped(r0), Skipped(r1[1..]), value.value, Skipped(value.rest)), SkipSpaces(value.rest))
  }

  lemma {:induction false} MemberUnfolds(s: string, names: set<Codes>)
    ensures ParseKey(s, names).Failed? ==> ParseMember(s, names).Failed?
    ensures ParseKey(s, names).Parsed? ==>
      var r0 := ParseKey(s, names).rest;
      var r1 := SkipSpaces(r0);
      ParseMember(s, names) == if r1 == "" || r1[0] != ':' then Failed
        else MemberFrom(ParseKey(s, names).value, r0, r1, ParseNode(SkipSpaces(r1[1..])))
  {
  }

  function MembersFrom(p: Parsed<Member>, names: set<Codes>): Parsed<Members> {
    if p.Failed? || p.rest == "" then Failed
    else if p.rest[0] == '}' then Parsed(LastMember(p.value), p.rest[1..])
    else if p.rest[0] != ',' then Failed
    else
      var others := ParseMembers(SkipSpaces(p.rest[1..]), names + {p.value.name.key});
      if others.Failed? then Failed else Parsed(MoreMembers(p.value, Skipped(p.rest[1..]), others.value), others.rest)
  }

  lemma {:induction false} ScalarUnfolds(s: string, p: Parsed<Scalar>)
    requires s != "" && s[0] != '{' && s[0] != '[' && p == LexScalar(s)
    ensures ParseNode(s) == if p.Failed? then Failed else Parsed(Leaf(p.value), p.rest)
  {
  }

  lemma {:induction false} EmptyObjectUnfolds(s: string)
    requires s != "" && s[0] == '{' && SkipSpaces(s[1..]) != "" && SkipSpaces(s[1..])[0] == '}'
    ensures ParseNode(s) == Parsed(EmptyObject(Skipped(s[1..])), SkipSpaces(s[1..])[1..])
  {
  }

  lemma {:induction false} ObjectUnfolds(s: string, p: Parsed<Members>)
    requires s != "" && s[0] == '{' && (SkipSpaces(s[1..]) == "" || SkipSpaces(s[1..])[0] != '}')
    requires p == ParseMembers(SkipSpaces(s[1..]), {})
    ensures ParseNode(s) == if p.Failed? then Failed else Parsed(Object(Skipped(s[1..]), p.value), p.rest)
  {
  }

  lemma {:induction false} ArrayUnfolds(s: string)
    requires s != "" && s[0] == '['
    ensures var r := SkipSpaces(s[1..]);
      var p := ParseItems(r);
      ParseNode(s) == if r != "" && r[0] == ']' then Parsed(EmptyArray(Skipped(s[1..])), r[1..])
        else if p.Failed? then Failed else Parsed(Array(Skipped(s[1..]), p.value), p.rest)
  {
  }

  lemma {:induction false} MembersUnfold(s: string, names: set<Codes>)
    ensures ParseMembers(s, names) == MembersFrom(ParseMember(s, names), names)
  {
  }

  function ItemsFrom(p: Parsed<Item>): Parsed<Items> {
    if p.Failed? || p.rest == "" then Failed
    else if p.rest[0] == ']' then Parsed(LastItem(p.value), p.rest[1..])
    else if p.rest[0] != ',' then Failed
    else
      var others := ParseItems(SkipSpaces(p.rest[1..]));
      if others.Failed? then Failed else Parsed(MoreItems(p.value, Skipped(p.rest[1..]), others.value), others.rest)
  }

  lemma {:induction false} ItemsUnfold(s: string)
    ensures ParseItems(s) == ItemsFrom(ParseItem(s))
  {
  }

  /** After a comma, the member just read moves from what is ahead to what has been read. */
  lemma {:induction false} MembersAdvance(done: seq<(Member, string)>, s: string, names: set<Codes>)
    requires var p := ParseMember(s, names); p.Parsed? && p.rest != "" && p.rest[0] == ','
    ensures var p := ParseMember(s, names);
      Before(done, ParseMembers(s, names)) ==
        Before(done + [(p.value, Skipped(p.rest[1..]))], ParseMembers(SkipSpaces(p.rest[1..]), names + {p.value.name.key}))
  {
    var p := ParseMember(s, names);
    MembersUnfold(s, names);
    var others := ParseMembers(SkipSpaces(p.rest[1..]), names + {p.value.name.key});
    if others.Parsed? {
      WrapOne(done, p.value, Skipped(p.rest[1..]), others.value);
    }
  }

  lemma {:induction false} ItemsAdvance(done: seq<(Item, string)>, s: string)
    requires var p := ParseItem(s); p.Parsed? && p.rest != "" && p.rest[0] == ','
    ensures var p := ParseItem(s);
      BeforeItems(done, ParseItems(s)) ==
        BeforeItems(done + [(p.value, Skipped(p.rest[1..]))], ParseItems(SkipSpaces(p.rest[1..])))
  {
    var p := ParseItem(s);
    ItemsUnfold(s);
    var others := ParseItems(SkipSpaces(p.rest[1..]));
    if others.Parsed? {
      WrapOneItem(done, p.value, Skipped(p.rest[1..]), others.value);
    }
  }

  // ----- the parser

  class JsonDocument {
    const text: string
    var spans: Spans

    constructor (text: string)
      ensures this.text == text && spans == map[]
    {
      this.text := text;
      spans := map[];
    }

    /** The text still ahead at an index. */
    function Ahead(index: nat): string
      requires index <= |text|
    {
      text[index..]
    }

    method Whitespace(start: nat) returns (index: nat)
      requires start <= |text|
      ensures start <= index <= |text| && Ahead(index) == SkipSpaces(Ahead(start))
    {
      index := start;
      while index < |text| && IsSpace(text[index])
        invariant start <= index <= |text| && SkipSpaces(Ahead(index)) == SkipSpaces(Ahead(start))
      {
        assert Ahead(index)[1..] == Ahead(index + 1);
        index := index + 1;
      }
    }

    method Parse(start: nat, path: Path) returns (r: Option<(Data, nat)>)
      requires start <= |text|
      modifies this
      ensures Outcome(text, ParseNode(SkipSpaces(Ahead(start))), |text| - |SkipSpaces(Ahead(start))|, path, old(spans), spans, r)
      decreases |text| - start, 3
    {
      var index := Whitespace(start);
      if index == |text| {
        return None;
      }
      assert Ahead(index)[0] == text[index];
      if text[index] == '{' {
        r := ReadObject(index, path);
      } else if text[index] == '[' {
        r := ReadArray(index, path);
      } else {
        r := ReadScalar(index, path);
      }
    }

    /** A name that is a new string, and its colon. */
    method ReadName(start: nat, names: set<Codes>) returns (r: Option<(Codes, nat)>)
      requires start <= |text|
      ensures var p := ParseKey(Ahead(start), names);
        && (r.Some? <==> p.Parsed? && SkipSpaces(p.rest) != "" && SkipSpaces(p.rest)[0] == ':')
        && (r.Some? ==> start < r.value.1 <= |text| && r.value.0 == p.value.key && Ahead(r.value.1) == SkipSpaces(p.rest)[1..])
    {
      hide ParseKey, SkipSpaces;
      var named := ParseKey(Ahead(start), names);
      if named.Failed? {
        return None;
      }
      KeySound(Ahead(start), names);
      var end := |text| - |named.rest|;
      Suffix(Ahead(start), Quoted(named.value.raw), named.rest, start);
      var index := Whitespace(end);
      if index == |text| || text[index] != ':' {
        return None;
      }
      assert Ahead(index)[1..] == Ahead(index + 1);
      return Some((named.value.key, index + 1));
    }

    /** A name, its colon and its value, up to what follows. */
    method ReadMember(start: nat, names: set<Codes>, path: Path) returns (r: Option<(Codes, Data, nat)>, ghost p: Parsed<Member>)
      requires start <= |text|
      modifies this
      ensures p == ParseMember(Ahead(start), names) && (r.Some? <==> p.Parsed?)
      ensures r.Some? ==>
        && r.value.0 == p.value.name.key && r.value.1 == DataOf(p.value.value)
        && r.value.2 == start + |MemberText(p.value)| <= |text| && Ahead(r.value.2) == p.rest
        && MemberAdded(p.value, start, path, old(spans), spans)
      decreases |text| - start, 1
    {
      hide ParseMember, ParseNode, ParseKey, SkipSpaces;
      r := None;
      p := ParseMember(Ahead(start), names);
      var named := ReadName(start, names);
      if named.None? {
        MemberUnfolds(Ahead(start), names);
        return;
      }
      var (key, colon) := named.value;
      ghost var before, n, at := spans, ParseNode(SkipSpaces(Ahead(colon))), |text| - |SkipSpaces(Ahead(colon))|;
      var value := Parse(colon, path + [K(key)]);
      assert Outcome(text, n, at, path + [K(key)], before, spans, value);
      MemberRead(start, names, colon);
      if value.None? {
        return;
      }
      MemberDone(text, n, p.value, key, start, at, path, before, spans, value);
      var next := Whitespace(value.value.1);
      r := Some((key, value.value.0, next));
    }

    /** A member is its name and what the value's parse gives, at the place of that value. */
    lemma {:induction false} MemberRead(start: nat, names: set<Codes>, colon: nat)
      requires start <= |text| && colon <= |text| && ParseKey(Ahead(start), names).Parsed?
      requires var r := SkipSpaces(ParseKey(Ahead(start), names).rest); r != "" && r[0] == ':' && Ahead(colon) == r[1..]
      ensures var key, p, n := ParseKey(Ahead(start), names).value.key, ParseMember(Ahead(start), names), ParseNode(SkipSpaces(Ahead(colon)));
        && (p.Parsed? <==> n.Parsed?)
        && (p.Parsed? ==>
              && p.value.name.key == key && p.value.value == n.value && p.rest == SkipSpaces(n.rest)
              && start + |MemberText(p.value)| + |p.rest| == |text|
              && start + |Head(p.value)| == |text| - |SkipSpaces(Ahead(colon))|)
    {
      MemberUnfolds(Ahead(start), names);
      if ParseMember(Ahead(start), names).Parsed? {
        MemberLies(start, names, colon);
      }
    }

    /** Where a member ends and where its value begins. */
    lemma {:induction false} MemberLies(start: nat, names: set<Codes>, colon: nat)
      requires start <= |text| && ParseMember(Ahead(start), names).Parsed?
      requires colon <= |text| && SkipSpaces(ParseKey(Ahead(start), names).rest) != ""
      requires Ahead(colon) == SkipSpaces(ParseKey(Ahead(start), names).rest)[1..]
      ensures var p := ParseMember(Ahead(start), names);
        && start + |MemberText(p.value)| + |p.rest| == |text|
        && start + |Head(p.value)| == |text| - |SkipSpaces(Ahead(colon))|
    {
      var p := ParseMember(Ahead(start), names);
      MemberSound(Ahead(start), names);
      Suffix(Ahead(start), MemberText(p.value), p.rest, start);
      var r2 := SkipSpaces(Ahead(colon));
      NodeSound(r2);
      SkipSplits(ParseNode(r2).rest);
    }

    /** The white space after an opening bracket. */
    lemma Inside(start: nat, index: nat)
      requires start < |text| && index <= |text| && Ahead(index) == SkipSpaces(Ahead(start + 1))
      ensures index == start + 1 + |Skipped(Ahead(start + 1))|
    {
      SkipSplits(Ahead(start + 1));
    }

    method ReadObject(start: nat, path: Path) returns (r: Option<(Data, nat)>)
      requires start < |text| && text[start] == '{'
      modifies this
      ensures Outcome(text, ParseNode(Ahead(start)), start, path, old(spans), spans, r)
      decreases |text| - start, 2
    {
      hide ParseNode, ParseMembers;
      assert Ahead(start)[0] == '{' && Ahead(start)[1..] == Ahead(start + 1);
      var index := Whitespace(start + 1);
      Inside(start, index);
      if index < |text| && text[index] == '}' {
        EmptyObjectUnfolds(Ahead(start));
        assert Ahead(index)[1..] == Ahead(index + 1);
        return Some((Obj([]), index + 1));
      }
      ghost var before, n, p := spans, ParseNode(Ahead(start)), Failed;
      r, p := ReadMembers(index, path);
      ObjectUnfolds(Ahead(start), p);
      ObjectOutcome(text, n, Skipped(Ahead(start + 1)), p, start, path, before, spans, r);
    }

    method ReadMembers(first: nat, path: Path) returns (r: Option<(Data, nat)>, ghost p: Parsed<Members>)
      requires first <= |text|
      modifies this
      ensures p == ParseMembers(Ahead(first), {}) && (r.Some? <==> p.Parsed?)
      ensures r.Some? ==>
        && r.value.0 == Obj(MembersData(p.value)) && r.value.1 <= |text| && Ahead(r.value.1) == p.rest
        && MembersAdded(p.value, first, path, old(spans), spans)
      decreases |text| - first, 2
    {
      hide ParseMembers, ParseMember, SkipSpaces;
      r := None;
      p := ParseMembers(Ahead(first), {});
      var index, fields, names := first, [], {};
      ghost var done: seq<(Member, string)> := [];
      while true
        invariant first <= index <= |text|
        invariant p == Before(done, ParseMembers(Ahead(index), names))
        invariant MembersRead(done, first, index, path, old(spans), spans, fields)
        decreases |text| - index
      {
        ghost var m;
        ghost var before := spans;
        var member;
        MembersUnfold(Ahead(index), names);
        member, m := ReadMember(index, names, path);
        if member.None? {
          return;
        }
        var (key, value, end) := member.value;
        var sign := Delimiter(end, '}');
        if sign.None? {
          return;
        }
        if sign.value.0 {
          LastMemberRead(done, m.value, first, index, path, old(spans), before, spans, fields);
          r := Some((Obj(fields + [Field(key, value)]), sign.value.1));
          return;
        }
        MembersAdvance(done, Ahead(index), names);
        OneMoreMember(done, m.value, Skipped(m.rest[1..]), first, index, path, old(spans), before, spans, fields);
        index := sign.value.1;
        done := done + [(m.value, Skipped(m.rest[1..]))];
        fields := fields + [Field(key, value)];
        names := names + {key};
      }
    }

    /** What follows a member or element: the closing bracket, or a comma and the white space after it. */
    method Delimiter(end: nat, close: char) returns (r: Option<(bool, nat)>)
      requires end <= |text| && close != ','
      ensures r.Some? <==> Ahead(end) != "" && (Ahead(end)[0] == close || Ahead(end)[0] == ',')
      ensures r.Some? ==> end < r.value.1 <= |text| && (r.value.0 <==> Ahead(end)[0] == close)
      ensures r.Some? && r.value.0 ==> Ahead(r.value.1) == Ahead(end)[1..]
      ensures r.Some? && !r.value.0 ==>
        && Ahead(r.value.1) == SkipSpaces(Ahead(end)[1..]) && SkipSpaces(Ahead(r.value.1)) == Ahead(r.value.1)
        && r.value.1 == end + 1 + |Skipped(Ahead(end)[1..])|
    {
      if end == |text| || (text[end] != close && text[end] != ',') {
        return None;
      }
      assert Ahead(end)[0] == text[end] && Ahead(end)[1..] == Ahead(end + 1);
      if text[end] == close {
        return Some((true, end + 1));
      }
      var index := Whitespace(end + 1);
      SkipSplits(Ahead(end + 1));
      return Some((false, index));
    }

    method ReadArray(start: nat, path: Path) returns (r: Option<(Data, nat)>)
      requires start < |text| && text[start] == '['
      modifies this
      ensures Outcome(text, ParseNode(Ahead(start)), start, path, old(spans), spans, r)
      decreases |text| - start, 2
    {
      hide ParseNode, ParseItems;
      assert Ahead(start)[0] == '[' && Ahead(start)[1..] == Ahead(start + 1);
      ArrayUnfolds(Ahead(start));
      var index := Whitespace(start + 1);
      SkipSplits(Ahead(start + 1));
      if index < |text| && text[index] == ']' {
        assert Ahead(index)[1..] == Ahead(index + 1);
        return Some((Arr([]), index + 1));
      }
      ghost var before, n, p := spans, ParseNode(Ahead(start)), Failed;
      r, p := ReadItems(index, path);
      ArrayOutcome(text, n, Skipped(Ahead(start + 1)), p, start, path, before, spans, r);
    }

    method ReadItems(first: nat, path: Path) returns (r: Option<(Data, nat)>, ghost p: Parsed<Items>)
      requires first <= |text| && SkipSpaces(Ahead(first)) == Ahead(first)
      modifies this
      ensures p == ParseItems(Ahead(first)) && (r.Some? <==> p.Parsed?)
      ensures r.Some? ==>
        && r.value.0 == Arr(ItemsData(p.value)) && r.value.1 <= |text| && Ahead(r.value.1) == p.rest
        && ItemsAdded(p.value, first, path, old(spans), spans)
      decreases |text| - first, 5
    {
      r := None;
      p := ParseItems(Ahead(first));
      var index, elements := first, [];
      ghost var done: seq<(Item, string)> := [];
      while true
        invariant first <= index <= |text| && SkipSpaces(Ahead(index)) == Ahead(index)
        invariant p == BeforeItems(done, ParseItems(Ahead(index)))
        invariant ItemsRead(done, first, index, path, old(spans), spans, elements)
        decreases |text| - index
      {
        ghost var i;
        ghost var before := spans;
        var item;
        ItemsUnfold(Ahead(index));
        item, i := ReadItem(index, path + [I(|elements|)]);
        if item.None? {
          return;
        }
        var (value, end) := item.value;
        var sign := Delimiter(end, ']');
        if sign.None? {
          return;
        }
        if sign.value.0 {
          LastItemRead(done, i.value, first, index, path, old(spans), before, spans, elements);
          r := Some((Arr(elements + [value]), sign.value.1));
          return;
        }
        ItemsAdvance(done, Ahead(index));
        OneMoreItem(done, i.value, Skipped(i.rest[1..]), first, index, path, old(spans), before, spans, elements);
        index := sign.value.1;
        done := done + [(i.value, Skipped(i.rest[1..]))];
        elements := elements + [value];
      }
    }

    /** An element, up to what follows. */
    method ReadItem(start: nat, path: Path) returns (r: Option<(Data, nat)>, ghost p: Parsed<Item>)
      requires start <= |text| && SkipSpaces(Ahead(start)) == Ahead(start)
      modifies this
      ensures p == ParseItem(Ahead(start)) && (r.Some? <==> p.Parsed?)
      ensures r.Some? ==>
        && r.value.0 == DataOf(p.value.value) && r.value.1 == start + |ItemText(p.value)| <= |text| && Ahead(r.value.1) == p.rest
        && NodeAdded(p.value.value, start, path, old(spans), spans)
      decreases |text| - start, 4
    {
      r := None;
      p := ParseItem(Ahead(start));
      var value := Parse(start, path);
      if value.None? {
        return;
      }
      var end := Whitespace(value.value.1);
      ItemSound(Ahead(start));
      Suffix(Ahead(start), ItemText(p.value), p.rest, start);
      r := Some((value.value.0, end));
    }

    /** The library's decoder reads one scalar. */
    method ReadScalar(index: nat, path: Path) returns (r: Option<(Data, nat)>)
      requires index < |text| && text[index] != '{' && text[index] != '['
      modifies this
      ensures Outcome(text, ParseNode(Ahead(index)), index, path, old(spans), spans, r)
    {
      hide ParseNode, LexScalar, TokenText;
      var p := LexScalar(Ahead(index));
      assert Ahead(index)[0] == text[index];
      ghost var n := ParseNode(Ahead(index));
      ScalarUnfolds(Ahead(index), p);
      if p.Failed? {
        assert Outcome(text, n, index, path, spans, spans, None);
        return None;
      }
      ScalarLies(text, index, p);
      var end := |text| - |p.rest|;
      ScalarOutcome(text, n, p, index, end, path, spans);
      spans := spans[path := (index, end)];
      return Some((Atom(p.value), end));
    }

    /** A text that splits in two continues after the first part. */
    lemma Suffix(s: string, head: string, tail: string, index: nat)
      requires index <= |text| && s == Ahead(index) && s == head + tail
      ensures index + |head| + |tail| == |text| && Ahead(index + |head|) == tail
    {
      assert s[|head|..] == tail;
    }
  }

  // ----- the document

  /** A whole text: its data and the table of its scalars. */
  method Load(raw: string) returns (data: Option<Data>, spans: Spans)
    ensures data.Some? <==> ParseDocument(raw).Some?
    ensures data.Some? ==>
      var d := ParseDocument(raw).value;
      data.value == DataOf(d.root) && spans == SpansOf(d.root, |d.before|, [])
  {
    var document := new JsonDocument(raw);
    assert document.Ahead(0) == raw;
    ghost var n := ParseNode(SkipSpaces(raw));
    var r := document.Parse(0, []);
    spans := document.spans;
    DocumentUnfolds(raw, n);
    if r.None? {
      return None, spans;
    }
    WholeOutcome(raw, n, spans, r);
    var end := document.Whitespace(r.value.1);
    data := if end == |raw| then Some(r.value.0) else None;
  }

  lemma {:induction false} DocumentUnfolds(raw: string, n: Parsed<Node>)
    requires n == ParseNode(SkipSpaces(raw))
    ensures ParseDocument(raw) == if n.Parsed? && SkipSpaces(n.rest) == "" then Some(Document(Skipped(raw), n.value, n.rest)) else None
  {
  }

  lemma {:induction false} WholeOutcome(raw: string, n: Parsed<Node>, spans: Spans, r: Option<(Data, nat)>)
    requires r.Some? && Outcome(raw, n, |raw| - |SkipSpaces(raw)|, [], map[], spans, r)
    ensures n.Parsed? && r.value.0 == DataOf(n.value) && raw[r.value.1..] == n.rest && spans == SpansOf(n.value, |Skipped(raw)|, [])
  {
    SkipSplits(raw);
    assert map[] + SpansOf(n.value, |Skipped(raw)|, []) == SpansOf(n.value, |Skipped(raw)|, []);
  }

  /** Every recorded span lies in the text and holds exactly the scalar at its path, every scalar is recorded, and no two spans overlap. */
  lemma SpansHoldScalars(raw: string)
    requires ParseDocument(raw).Some?
    ensures var d := ParseDocument(raw).value;
      var spans := SpansOf(d.root, |d.before|, []);
      && (forall p :: p in spans <==> At(d.root, p).Some?)
      && (forall p :: p in spans ==>
            spans[p].0 <= spans[p].1 <= |raw| && raw[spans[p].0..spans[p].1] == TokenText(At(d.root, p).value.token))
      && (forall p, q :: p in spans && q in spans && p != q ==> spans[p].1 <= spans[q].0 || spans[q].1 <= spans[p].0)
  {
    var d := ParseDocument(raw).value;
    var spans := SpansOf(d.root, |d.before|, []);
    ParsesExactly(raw, d);
    forall p ensures Records(spans, p, |d.before|, At(d.root, p)) {
      assert [] + p == p;
      SpansArePlaces(d.root, |d.before|, [], p);
    }
    forall p | p in spans
      ensures spans[p].0 <= spans[p].1 <= |raw| && raw[spans[p].0..spans[p].1] == TokenText(At(d.root, p).value.token)
    {
      SpanHolds(raw, d, p);
    }
    forall p, q | p in spans && q in spans && p != q ensures spans[p].1 <= spans[q].0 || spans[q].1 <= spans[p].0 {
      var token := At(d.root, p).value.token;
      PathsApart(d.root, p, q, token, token);
    }
  }

  lemma {:induction false} SpanHolds(raw: string, d: Document, p: Path)
    requires raw == DocumentText(d) && At(d.root, p).Some?
    ensures var v := At(d.root, p).value;
      |d.before| + End(v) <= |raw| && raw[|d.before| + Start(v)..|d.before| + End(v)] == TokenText(v.token)
  {
    var v := At(d.root, p).value;
    PlaceInside(d.root, p);
    var left := d.before + v.before;
    assert raw == left + TokenText(v.token) + (v.after + d.after);
  }
}
