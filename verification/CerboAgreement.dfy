/**
 Messages and snapshots: when the dashboard values that MQTT messages leave behind are the ones a single
 snapshot of the remaining leaves gives. The devices of a kind are listed by their sort keys, so the order in
 which leaves arrived shows only between devices whose keys are equal, as those of "1" and "01" are. The
 authority to command a pump is where the two differ in other ways.
 */
module CerboAgreement {
  import opened Basics
  import Decimal
  import opened InstanceOrder
  import opened CerboReducer

  /** A topic's third and fourth parts: an instance is a non-empty part of a text split at its slashes. */
  predicate FromTopic(m: Message) { m.instance != "" && '/' !in m.instance }

  function Next(d: Devices, m: Message): Devices { if Accepts(d, m) then After(d, m) else d }

  /** The devices after all messages, refused ones included. */
  function Play(d: Devices, messages: seq<Message>): Devices
    decreases |messages|
  {
    if messages == [] then d else Play(Next(d, messages[0]), messages[1..])
  }

  lemma NextOk(d: Devices, m: Message)
    requires DevicesOk(d) && FromTopic(m)
    ensures DevicesOk(Next(d, m))
  {
    if Accepts(d, m) {
      match m
      case Leaf(kind, instance, path, payload, _) => StoreOk(d, kind, instance, path, payload.value);
      case Empty(kind, instance, _) => WithoutOk(kind, GroupOf(d, kind), instance);
    }
  }

  lemma {:induction false} PlayOk(d: Devices, messages: seq<Message>)
    requires DevicesOk(d) && forall m :: m in messages ==> FromTopic(m)
    ensures DevicesOk(Play(d, messages))
    decreases |messages|
  {
    if messages != [] {
      assert messages[0] in messages;
      NextOk(d, messages[0]);
      PlayOk(Next(d, messages[0]), messages[1..]);
    }
  }

  // ----- the leaves of a snapshot

  /** An object has each key once. */
  predicate DistinctKeys(entries: Entries) { forall m, n :: 0 <= m < n < |entries| ==> entries[m].0 != entries[n].0 }

  predicate In(g: Group, i: Instance, p: string, v: Value) { i in g.leaves && p in g.leaves[i] && g.leaves[i][p] == v }

  /** The entries have this leaf, in a form that is accepted. */
  predicate Carries(kind: Kind, entries: Entries, i: Instance, p: string, v: Value) {
    i != "" && '/' !in i && Accepted(kind, p, v) && (i + "/" + p, v) in entries
  }

  lemma {:induction false} GroupHolds(kind: Kind, entries: Entries, i: Instance, p: string, v: Value)
    requires DistinctKeys(entries)
    ensures In(GroupFrom(kind, entries), i, p, v) <==> Carries(kind, entries, i, p, v)
  {
    if entries != [] {
      var most, e := entries[..|entries| - 1], entries[|entries| - 1];
      assert entries == most + [e];
      GroupHolds(kind, most, i, p, v);
      LastCarried(kind, most, e, i, p, v);
      if EntryOk(kind, e.0, e.1) {
        WithLeafHas(GroupFrom(kind, most), Split(e.0).0, Split(e.0).1, e.1, i, p, v);
      }
    }
  }

  lemma WithLeafHas(g: Group, j: Instance, q: string, w: Value, i: Instance, p: string, v: Value)
    ensures In(WithLeaf(g, j, q, w), i, p, v) <==> if i == j && p == q then v == w else In(g, i, p, v)
  {
  }

  /** The last entry adds its own leaf, if it is accepted, and no entry before it is for that leaf. */
  lemma LastCarried(kind: Kind, most: Entries, e: (string, Value), i: Instance, p: string, v: Value)
    requires DistinctKeys(most + [e])
    ensures Carries(kind, most + [e], i, p, v) <==>
      if EntryOk(kind, e.0, e.1) && Split(e.0) == (i, p) then v == e.1 else Carries(kind, most, i, p, v)
  {
    var all := most + [e];
    assert forall m :: 0 <= m < |most| ==> all[m] == most[m];
    assert all[|most|] == e;
    assert forall w :: (e.0, w) !in most;
    if '/' in e.0 {
      SplitJoins(e.0);
    }
    if '/' !in i {
      JoinSplits(i, p);
    }
  }

  /** The snapshot is an object of objects whose leaves are those of the devices. */
  ghost predicate SnapshotOf(snapshot: Snapshot, d: Devices) {
    && (forall k :: k in snapshot ==> DistinctKeys(snapshot[k]))
    && forall k, i, p, v :: Holds(d, k, i, p, v) <==> k in snapshot && Carries(k, snapshot[k], i, p, v)
  }

  ghost predicate SameLeaves(d: Devices, e: Devices) { forall k :: GroupOf(d, k).leaves == GroupOf(e, k).leaves }

  lemma SnapshotLeaves(snapshot: Snapshot, d: Devices)
    requires DevicesOk(d) && SnapshotOf(snapshot, d)
    ensures SameLeaves(d, DevicesFrom(snapshot)) && DevicesOk(DevicesFrom(snapshot))
  {
    hide DevicesOk, DevicesFrom, SnapshotOf;
    DevicesFromOk(snapshot);
    forall k ensures GroupOf(d, k).leaves == GroupOf(DevicesFrom(snapshot), k).leaves {
      KindLeaves(snapshot, d, k);
    }
  }

  lemma KindLeaves(snapshot: Snapshot, d: Devices, k: Kind)
    requires DevicesOk(d) && DevicesOk(DevicesFrom(snapshot)) && SnapshotOf(snapshot, d)
    ensures GroupOf(d, k).leaves == GroupOf(DevicesFrom(snapshot), k).leaves
  {
    hide In, DevicesFrom, SnapshotOf;
    var g, h := GroupOf(d, k), GroupOf(DevicesFrom(snapshot), k);
    forall i, p, v ensures In(g, i, p, v) <==> In(h, i, p, v) {
      LeafKept(snapshot, d, k, i, p, v);
    }
    SameGroup(g, h);
    SameGroup(h, g);
  }

  lemma LeafKept(snapshot: Snapshot, d: Devices, k: Kind, i: Instance, p: string, v: Value)
    requires SnapshotOf(snapshot, d)
    ensures In(GroupOf(d, k), i, p, v) <==> In(GroupOf(DevicesFrom(snapshot), k), i, p, v)
  {
    hide Carries;
    assert In(GroupOf(d, k), i, p, v) <==> Holds(d, k, i, p, v);
    if k in snapshot {
      GroupHolds(k, snapshot[k], i, p, v);
      GroupFromOk(k, snapshot[k]);
    }
  }

  lemma SameGroup(g: Group, h: Group)
    requires forall i :: i in g.leaves ==> g.leaves[i] != map[]
    requires forall i, p, v :: In(g, i, p, v) <==> In(h, i, p, v)
    ensures forall i :: i in g.leaves ==> i in h.leaves && g.leaves[i] == h.leaves[i]
  {
    forall i | i in g.leaves ensures i in h.leaves && g.leaves[i] == h.leaves[i] {
      SomePath(g.leaves[i]);
      var p :| p in g.leaves[i];
      assert In(h, i, p, g.leaves[i][p]);
      forall q | q in g.leaves[i] ensures q in h.leaves[i] && h.leaves[i][q] == g.leaves[i][q] {
        assert In(h, i, q, g.leaves[i][q]);
      }
      forall q | q in h.leaves[i] ensures q in g.leaves[i] {
        assert In(g, i, q, h.leaves[i][q]);
      }
    }
  }

  lemma SomePath(leaves: Leaves)
    requires leaves != map[]
    ensures exists p :: p in leaves
  {
  }

  // ----- equal leaves, equal lists

  /** In every kind, connected devices with equal sort keys came in the same order. */
  ghost predicate TiesAlike(rank: Ranking, d: Devices, e: Devices) {
    forall k :: SameTies(rank, GroupOf(d, k).order, GroupOf(e, k).order, ConnectedOf(GroupOf(d, k)))
  }

  lemma PairsDiffer(s: seq<Instance>, t: seq<Instance>, leaves: map<Instance, Leaves>)
    ensures Pairs(s, leaves) == Pairs(t, leaves) <==> s == t
  {
    var p, q := Pairs(s, leaves), Pairs(t, leaves);
    if p == q {
      assert |s| == |t|;
      forall n | 0 <= n < |s| ensures s[n] == t[n] {
        assert p[n].0 == s[n] && q[n].0 == t[n];
      }
    }
  }

  /** The same leaves are listed alike exactly when their ties came in the same order. */
  lemma ListsAlike(rank: Ranking, d: Devices, e: Devices)
    requires DevicesOk(d) && DevicesOk(e) && SameLeaves(d, e)
    ensures ListsOf(rank, d) == ListsOf(rank, e) <==> TiesAlike(rank, d, e)
  {
    forall k ensures Listed(rank, GroupOf(d, k)) == Listed(rank, GroupOf(e, k)) <==>
      SameTies(rank, GroupOf(d, k).order, GroupOf(e, k).order, ConnectedOf(GroupOf(d, k)))
    {
      KindListed(rank, GroupOf(d, k), GroupOf(e, k));
    }
    ListsByKind(rank, d, e);
  }

  lemma ListsByKind(rank: Ranking, d: Devices, e: Devices)
    ensures ListsOf(rank, d) == ListsOf(rank, e) <==> forall k :: Listed(rank, GroupOf(d, k)) == Listed(rank, GroupOf(e, k))
  {
    var l, m := ListsOf(rank, d), ListsOf(rank, e);
    forall k ensures k in l && l[k] == Listed(rank, GroupOf(d, k)) && k in m && m[k] == Listed(rank, GroupOf(e, k)) {
      EveryKind(k);
    }
    if forall k :: Listed(rank, GroupOf(d, k)) == Listed(rank, GroupOf(e, k)) {
      assert l == m;
    }
  }

  lemma EveryKind(k: Kind)
    ensures k in KINDS
  {
    match k
    case System =>
    case _ =>
  }

  lemma KindListed(rank: Ranking, g: Group, h: Group)
    requires Distinct(g.order) && (forall i :: i in g.order <==> i in g.leaves)
    requires Distinct(h.order) && (forall i :: i in h.order <==> i in h.leaves) && g.leaves == h.leaves
    ensures Listed(rank, g) == Listed(rank, h) <==> SameTies(rank, g.order, h.order, ConnectedOf(g))
  {
    ListedAlike(rank, g.order, h.order, ConnectedOf(g));
    PairsDiffer(Kept(Sort(rank, g.order), ConnectedOf(g)), Kept(Sort(rank, h.order), ConnectedOf(h)), g.leaves);
  }

  /** The same leaves can be listed, or raise, in either order. */
  lemma RaiseAlike(rank: Ranking, d: Devices, e: Devices)
    requires SameLeaves(d, e)
    ensures AllSortable(rank, d) <==> AllSortable(rank, e)
  {
    forall k ensures (k in d ==> Sortable(rank, d[k])) <==> (k in e ==> Sortable(rank, e[k])) {
      assert GroupOf(d, k).leaves == GroupOf(e, k).leaves;
    }
  }

  /** What a reducer reads for a key depends on the lists of connected devices alone, claimed or not. */
  lemma ReadingByLists(r: Reducer, key: Key)
    requires r.Valid()
    ensures r.Reading(key) == ShownOf(r.config, ViewOf(r.config, ListsOf(r.config.rank, r.devices)), key)
  {
    NothingListed(r.config, r.devices);
    ShownByView(r.config, ViewOf(r.config, ListsOf(r.config.rank, r.devices)), r.devices.Keys, r.claimed, key);
  }

  /** The owned keys reported to have a value are those that read as one. */
  lemma AvailableByReading(r: Reducer)
    requires r.Valid()
    ensures forall k :: k in r.available <==> k in r.config.owned && r.Reading(k) != Unknown
  {
  }

  /**
   Any messages from an empty reducer read as one snapshot of the leaves they leave behind, whatever each side
   claims, when devices with equal sort keys are in the same order in both.
   */
  lemma {:induction false} MessagesAgreeWithSnapshot(streamed: Reducer, replaced: Reducer, messages: seq<Message>, snapshot: Snapshot, key: Key)
    requires streamed.Valid() && replaced.Valid() && streamed.config == replaced.config
    requires forall m :: m in messages ==> FromTopic(m)
    requires streamed.devices == Play(map[], messages) && SnapshotOf(snapshot, streamed.devices)
    requires replaced.devices == DevicesFrom(snapshot)
    requires TiesAlike(streamed.config.rank, streamed.devices, replaced.devices)
    ensures streamed.Reading(key) == replaced.Reading(key) && streamed.available == replaced.available
  {
    SnapshotLeaves(snapshot, streamed.devices);
    ListsAlike(streamed.config.rank, streamed.devices, replaced.devices);
    forall k ensures streamed.Reading(k) == replaced.Reading(k) {
      ReadingByLists(streamed, k);
      ReadingByLists(replaced, k);
    }
    AvailableByReading(streamed);
    AvailableByReading(replaced);
  }

  /** What some overlay functions show of the lists. */
  function Seen(c: Config, project: Lists -> map<Key, Reading>, l: Lists, key: Key): Reading {
    var c' := c.(project := project);
    ShownOf(c', ViewOf(c', l), key)
  }

  /** That is the exact condition: without it some overlay functions tell the two apart. */
  lemma AgreeExactlyWithTies(c: Config, d: Devices, e: Devices)
    requires DevicesOk(d) && DevicesOk(e) && SameLeaves(d, e)
    ensures TiesAlike(c.rank, d, e) <==>
      forall project: Lists -> map<Key, Reading>, key :: Seen(c, project, ListsOf(c.rank, d), key) == Seen(c, project, ListsOf(c.rank, e), key)
  {
    ListsAlike(c.rank, d, e);
    ToldApart(c, ListsOf(c.rank, d), ListsOf(c.rank, e));
  }

  lemma ToldApart(c: Config, l: Lists, m: Lists)
    ensures l == m || exists project: Lists -> map<Key, Reading>, key :: Seen(c, project, l, key) != Seen(c, project, m, key)
  {
    if l != m {
      var key := Tile("gt");
      var shown := if (c.defaults)(key) == Measured(1.0) then Measured(2.0) else Measured(1.0);
      var project: Lists -> map<Key, Reading> := lists => if lists == l then map[key := shown] else map[];
      assert Seen(c, project, l, key) == shown != Seen(c, project, m, key);
    }
  }

  /** Devices named the usual way never tie, so the order of arrival never shows. */
  lemma UsualNamesAgree(rank: Ranking, d: Devices, e: Devices)
    requires RankingOk(rank) && DevicesOk(d) && DevicesOk(e) && SameLeaves(d, e)
    requires forall k, i {:trigger i in ConnectedOf(GroupOf(d, k))} :: i in ConnectedOf(GroupOf(d, k)) ==> Usual(i)
    ensures TiesAlike(rank, d, e)
  {
    forall k, a, b | a in ConnectedOf(GroupOf(d, k)) && b in ConnectedOf(GroupOf(d, k)) && KeyOf(rank, a) == KeyOf(rank, b)
      ensures Precedes(GroupOf(d, k).order, a, b) <==> Precedes(GroupOf(e, k).order, a, b)
    {
      if a != b {
        UsualNeverTie(rank, a, b);
      } else {
        NotBeforeItself(GroupOf(d, k).order, a);
        NotBeforeItself(GroupOf(e, k).order, a);
      }
    }
  }

  lemma NotBeforeItself(s: seq<Instance>, a: Instance)
    requires Distinct(s)
    ensures !Precedes(s, a, a)
  {
  }

  // ----- a snapshot in the order of arrival

  /** Entries, all accepted, that build the group. */
  ghost predicate Lists(kind: Kind, entries: Entries, g: Group) {
    && DistinctKeys(entries) && GroupFrom(kind, entries) == g
    && forall e :: e in entries ==> EntryOk(kind, e.0, e.1)
  }

  lemma OneMoreLeaf(kind: Kind, entries: Entries, g: Group, i: Instance, p: string, v: Value)
    requires Lists(kind, entries, g) && i != "" && '/' !in i && Accepted(kind, p, v)
    requires i !in g.leaves || p !in g.leaves[i]
    ensures Lists(kind, entries + [(i + "/" + p, v)], WithLeaf(g, i, p, v))
  {
    hide Accepted, Split, WithLeaf;
    JoinSplits(i, p);
    NewKey(kind, entries, g, i, p);
    var all := entries + [(i + "/" + p, v)];
    assert all[..|all| - 1] == entries;
  }

  lemma NewKey(kind: Kind, entries: Entries, g: Group, i: Instance, p: string)
    requires Lists(kind, entries, g) && i != "" && '/' !in i && (i !in g.leaves || p !in g.leaves[i])
    ensures forall n :: 0 <= n < |entries| ==> entries[n].0 != i + "/" + p
  {
    JoinSplits(i, p);
    forall n | 0 <= n < |entries| ensures entries[n].0 != i + "/" + p {
      if entries[n].0 == i + "/" + p {
        assert entries[n] in entries && EntryOk(kind, entries[n].0, entries[n].1);
        GroupHolds(kind, entries, i, p, entries[n].1);
      }
    }
  }

  lemma {:induction false} InstanceEntries(kind: Kind, entries: Entries, g: Group, i: Instance, leaves: Leaves) returns (all: Entries)
    requires Lists(kind, entries, g) && i != "" && '/' !in i && i !in g.leaves && leaves != map[]
    requires forall p :: p in leaves ==> Accepted(kind, p, leaves[p])
    ensures Lists(kind, all, Group(g.order + [i], g.leaves[i := leaves]))
    decreases |leaves|
  {
    var p, rest := OnePath(leaves);
    var v := leaves[p];
    if rest == map[] {
      OneMoreLeaf(kind, entries, g, i, p, v);
      all := entries + [(i + "/" + p, v)];
    } else {
      var most := InstanceEntries(kind, entries, g, i, rest);
      OneMoreLeaf(kind, most, Group(g.order + [i], g.leaves[i := rest]), i, p, v);
      all := most + [(i + "/" + p, v)];
    }
    LeavesOfOne(g, i, rest, p, v);
  }

  lemma OnePath(leaves: Leaves) returns (p: string, rest: Leaves)
    requires leaves != map[]
    ensures p in leaves && p !in rest && leaves == rest[p := leaves[p]] && |rest| < |leaves|
    ensures forall q :: q in rest ==> q in leaves && rest[q] == leaves[q]
  {
    SomePath(leaves);
    p :| p in leaves;
    rest := leaves - {p};
    assert leaves.Keys == rest.Keys + {p};
    assert |leaves| == |leaves.Keys| && |rest| == |rest.Keys|;
  }

  lemma LeavesOfOne(g: Group, i: Instance, rest: Leaves, p: string, v: Value)
    requires i !in g.leaves
    ensures rest == map[] ==> WithLeaf(g, i, p, v) == Group(g.order + [i], g.leaves[i := rest[p := v]])
    ensures WithLeaf(Group(g.order + [i], g.leaves[i := rest]), i, p, v) == Group(g.order + [i], g.leaves[i := rest[p := v]])
  {
  }

  lemma {:induction false} GroupEntries(kind: Kind, g: Group) returns (entries: Entries)
    requires GroupOk(kind, g)
    ensures Lists(kind, entries, g)
    decreases |g.order|
  {
    if g.order == [] {
      entries := [];
    } else {
      var i := g.order[|g.order| - 1];
      var h := Group(g.order[..|g.order| - 1], g.leaves - {i});
      LastInstance(kind, g);
      var most := GroupEntries(kind, h);
      entries := InstanceEntries(kind, most, h, i, g.leaves[i]);
    }
  }

  lemma LastInstance(kind: Kind, g: Group)
    requires GroupOk(kind, g) && g.order != []
    ensures var i, h := g.order[|g.order| - 1], Group(g.order[..|g.order| - 1], g.leaves - {g.order[|g.order| - 1]});
      && GroupOk(kind, h) && i in g.leaves && i !in h.leaves && i != "" && '/' !in i
      && g == Group(h.order + [i], h.leaves[i := g.leaves[i]])
      && g.leaves[i] != map[] && forall p :: p in g.leaves[i] ==> Accepted(kind, p, g.leaves[i][p])
  {
    var order, i := g.order[..|g.order| - 1], g.order[|g.order| - 1];
    assert g.order == order + [i];
    assert i in g.order;
    forall j ensures j in order <==> j in g.leaves - {i} {
      assert j in g.order <==> j in order || j == i;
    }
    assert g.leaves == (g.leaves - {i})[i := g.leaves[i]];
  }

  /** Listed in the order of arrival, the leaves of any devices make a snapshot that gives the same devices back. */
  lemma ArrivalSnapshot(rank: Ranking, d: Devices) returns (snapshot: Snapshot)
    requires DevicesOk(d)
    ensures SnapshotOf(snapshot, d) && TiesAlike(rank, d, DevicesFrom(snapshot))
    ensures forall k :: GroupOf(DevicesFrom(snapshot), k) == GroupOf(d, k)
  {
    snapshot := EntriesByKind(d);
    forall k ensures GroupOf(DevicesFrom(snapshot), k) == GroupOf(d, k) {
      if k in d && d[k].order == [] {
        assert d[k] == NO_DEVICES;
      }
    }
    forall k, i, p, v ensures Holds(d, k, i, p, v) <==> k in snapshot && Carries(k, snapshot[k], i, p, v) {
      if k in d {
        GroupHolds(k, snapshot[k], i, p, v);
      }
    }
  }

  lemma EntriesByKind(d: Devices) returns (snapshot: Snapshot)
    requires DevicesOk(d)
    ensures snapshot.Keys == d.Keys && forall k :: k in d ==> Lists(k, snapshot[k], d[k])
  {
    forall k | k in d ensures exists entries :: Lists(k, entries, d[k]) {
      var entries := GroupEntries(k, d[k]);
    }
    snapshot := map k | k in d :: var entries :| Lists(k, entries, d[k]); entries;
  }

  // ----- where the two differ

  /** With nothing but grid meters that report their total, the grid power is that of the first listed. */
  ghost predicate ShowsFirstMeter(project: Lists -> map<Key, Reading>) {
    forall l: Lists, v ::
      Grid in l && (forall k :: k in l && k != Grid ==> l[k] == []) && l[Grid] != [] && l[Grid][0].1 == map["Ac/Power" := Num(v)] ==>
        Tile("gt") in project(l) && project(l)[Tile("gt")] == Measured(v)
  }

  /** The devices of two grid meters, stored in this order. */
  function TwoMeters(i: Instance, v: real, j: Instance, w: real): Devices {
    map[Grid := Group([i, j], map[i := map["Ac/Power" := Num(v)], j := map["Ac/Power" := Num(w)]])]
  }

  lemma TiedPair(rank: Ranking, i: Instance, j: Instance)
    requires KeyOf(rank, i) == KeyOf(rank, j)
    ensures Kept(Sort(rank, [i, j]), {i, j}) == [i, j]
  {
    RankOrder(KeyOf(rank, i), KeyOf(rank, j), KeyOf(rank, i));
    assert [i, j][1..] == [j] && [j][1..] == [];
    assert Sort(rank, [j]) == Insert(rank, j, []) == [j];
    assert Sort(rank, [i, j]) == Insert(rank, i, [j]) == [i, j];
    assert Kept([j], {i, j}) == [j] + Kept([], {i, j});
    assert Kept([i, j], {i, j}) == [i] + Kept([j], {i, j});
  }

  lemma FirstMeterShown(c: Config, i: Instance, v: real, j: Instance, w: real)
    requires ShowsFirstMeter(c.project) && i != j && c.rank(i).Some? && c.rank(i) == c.rank(j)
    ensures ShowsGridPower(c, TwoMeters(i, v, j, w), v)
  {
    hide ListsOf, ViewOf, ShowsFirstMeter;
    var d := TwoMeters(i, v, j, w);
    BothConnected(i, v, j, w);
    FirstShown(c, d, i, v, j);
    assert AllSortable(c.rank, d);
  }

  lemma FirstShown(c: Config, d: Devices, i: Instance, v: real, j: Instance)
    requires ShowsFirstMeter(c.project) && KeyOf(c.rank, i) == KeyOf(c.rank, j)
    requires d.Keys == {Grid} && d[Grid].order == [i, j] && d[Grid].leaves.Keys == ConnectedOf(d[Grid]) == {i, j}
    requires d[Grid].leaves[i] == map["Ac/Power" := Num(v)]
    ensures ShownOf(c, ViewOf(c, ListsOf(c.rank, d)), Tile("gt")) == Measured(v)
  {
    TiedPair(c.rank, i, j);
    OnlyMeters(c.rank, d, i, j);
    FirstOfLists(c, ListsOf(c.rank, d), v);
  }

  lemma BothConnected(i: Instance, v: real, j: Instance, w: real)
    requires i != j
    ensures var d := TwoMeters(i, v, j, w); d.Keys == {Grid} && d[Grid].order == [i, j]
    ensures var g := TwoMeters(i, v, j, w)[Grid]; g.leaves.Keys == ConnectedOf(g) == {i, j} && g.leaves[i] == map["Ac/Power" := Num(v)]
  {
    var g := TwoMeters(i, v, j, w)[Grid];
    assert "Connected" !in g.leaves[i] && "Connected" !in g.leaves[j];
  }

  lemma FirstOfLists(c: Config, l: Lists, v: real)
    requires ShowsFirstMeter(c.project)
    requires Grid in l && (forall k :: k in l && k != Grid ==> l[k] == []) && l[Grid] != [] && l[Grid][0].1 == map["Ac/Power" := Num(v)]
    ensures ShownOf(c, ViewOf(c, l), Tile("gt")) == Measured(v)
  {
  }

  lemma OnlyMeters(rank: Ranking, d: Devices, i: Instance, j: Instance)
    requires d.Keys == {Grid} && d[Grid].order == [i, j] && d[Grid].leaves.Keys == ConnectedOf(d[Grid]) == {i, j}
    requires Kept(Sort(rank, [i, j]), {i, j}) == [i, j]
    ensures var l := ListsOf(rank, d);
      Grid in l && (forall k :: k in l && k != Grid ==> l[k] == []) && l[Grid] != [] && l[Grid][0].1 == d[Grid].leaves[i]
  {
    var l := ListsOf(rank, d);
    assert l[Grid] == Pairs([i, j], d[Grid].leaves);
    forall k | k in l && k != Grid ensures l[k] == [] {
      assert l[k] == Listed(rank, NO_DEVICES);
    }
  }

  /** The messages and the snapshot leave the same leaves, none of which raises, yet show different grid power. */
  ghost predicate GridPowerDiffers(c: Config, messages: seq<Message>, snapshot: Snapshot, v: real, w: real) {
    && (forall m :: m in messages ==> FromTopic(m)) && SnapshotOf(snapshot, Play(map[], messages))
    && ShowsGridPower(c, Play(map[], messages), v) && ShowsGridPower(c, DevicesFrom(snapshot), w)
  }

  ghost predicate ShowsGridPower(c: Config, d: Devices, v: real) {
    AllSortable(c.rank, d) && ShownOf(c, ViewOf(c, ListsOf(c.rank, d)), Tile("gt")) == Measured(v)
  }

  /** Two meters that tie show the power of whichever came first. */
  lemma TiedMetersDiffer(c: Config, i: Instance, v: real, j: Instance, w: real) returns (messages: seq<Message>, snapshot: Snapshot)
    requires ShowsFirstMeter(c.project) && i != j && i != "" && '/' !in i && j != "" && '/' !in j
    requires c.rank(i).Some? && c.rank(i) == c.rank(j)
    ensures GridPowerDiffers(c, messages, snapshot, v, w)
  {
    messages := PlayedMeters(i, v, j, w);
    snapshot := SnapshotMeters(c.rank, i, v, j, w);
    FirstMeterShown(c, i, v, j, w);
    FirstMeterShown(c, j, w, i, v);
  }

  /** The meters "01" and "1" do: messages in one order and a snapshot in the other. */
  lemma TiedMetersDisagree(c: Config) returns (messages: seq<Message>, snapshot: Snapshot)
    requires RankingOk(c.rank) && ShowsFirstMeter(c.project)
    ensures GridPowerDiffers(c, messages, snapshot, 100.0, 200.0)
  {
    var i, j := TiedNames(c.rank);
    messages, snapshot := TiedMetersDiffer(c, i, 100.0, j, 200.0);
  }

  /** The grid power as the overlay functions give it when only meters are connected, and nothing else. */
  function FirstMeter(l: Lists): map<Key, Reading> {
    if Grid in l && l[Grid] != [] && "Ac/Power" in l[Grid][0].1 && l[Grid][0].1["Ac/Power"].Num?
    then map[Tile("gt") := Measured(l[Grid][0].1["Ac/Power"].n)]
    else map[]
  }

  function Defaults(key: Key): Reading {
    match key
    case DiscoveredWaterEv => Inventory([])
    case EvPresent => Flag(false)
    case EvChargerPresent => Flag(false)
    case Tile(_) => Unknown
  }

  /** Configurations of that kind exist. */
  lemma SomeMetersDisagree() returns (c: Config, messages: seq<Message>, snapshot: Snapshot)
    ensures ConfigOk(c) && RankingOk(c.rank) && ShowsFirstMeter(c.project)
    ensures GridPowerDiffers(c, messages, snapshot, 100.0, 200.0)
  {
    c := MeterConfig();
    messages, snapshot := TiedMetersDisagree(c);
  }

  lemma MeterConfig() returns (c: Config)
    ensures ConfigOk(c) && RankingOk(c.rank) && ShowsFirstMeter(c.project)
  {
    c := Config(None, None, StrictRank, FirstMeter, (k, i, p) => {}, Defaults, {Tile("gt")});
    StrictRankOk();
    FirstMeterShows();
  }

  lemma FirstMeterShows()
    ensures ShowsFirstMeter(FirstMeter)
  {
  }

  lemma PlayedMeters(i: Instance, v: real, j: Instance, w: real) returns (messages: seq<Message>)
    requires i != j && i != "" && '/' !in i && j != "" && '/' !in j
    ensures (forall m :: m in messages ==> FromTopic(m)) && Play(map[], messages) == TwoMeters(i, v, j, w)
  {
    var m, n := Leaf(Grid, i, "Ac/Power", Some(Num(v)), false), Leaf(Grid, j, "Ac/Power", Some(Num(w)), false);
    messages := [m, n];
    assert messages[1..] == [n] && [n][1..] == [];
    var d := map[Grid := Group([i], map[i := map["Ac/Power" := Num(v)]])];
    assert "Ac/" <= "Ac/Power" && Accepted(Grid, "Ac/Power", Num(v)) && Accepted(Grid, "Ac/Power", Num(w));
    assert WithLeaf(NO_DEVICES, i, "Ac/Power", Num(v)) == d[Grid];
    assert WithLeaf(d[Grid], j, "Ac/Power", Num(w)) == TwoMeters(i, v, j, w)[Grid];
    assert Next(map[], m) == d && Next(d, n) == TwoMeters(i, v, j, w);
    assert Play(map[], messages) == Play(d, [n]) == Play(Next(d, n), []);
  }

  lemma SnapshotMeters(rank: Ranking, i: Instance, v: real, j: Instance, w: real) returns (snapshot: Snapshot)
    requires i != j && i != "" && '/' !in i && j != "" && '/' !in j
    ensures SnapshotOf(snapshot, TwoMeters(i, v, j, w)) && DevicesFrom(snapshot) == TwoMeters(j, w, i, v)
  {
    hide DevicesFrom, DevicesOk, TiesAlike;
    var d, e := TwoMeters(i, v, j, w), TwoMeters(j, w, i, v);
    MetersOk(j, w, i, v);
    snapshot := ArrivalSnapshot(rank, e);
    SameDevices(snapshot, e);
    assert d[Grid].leaves == e[Grid].leaves;
    assert forall k, i, p, v :: Holds(d, k, i, p, v) <==> Holds(e, k, i, p, v);
  }

  lemma MetersOk(i: Instance, v: real, j: Instance, w: real)
    requires i != j && i != "" && '/' !in i && j != "" && '/' !in j
    ensures DevicesOk(TwoMeters(i, v, j, w))
  {
    var g := TwoMeters(i, v, j, w)[Grid];
    assert "Ac/" <= "Ac/Power" && Accepted(Grid, "Ac/Power", Num(v)) && Accepted(Grid, "Ac/Power", Num(w));
    assert "Ac/Power" in g.leaves[i] && "Ac/Power" in g.leaves[j];
    assert GroupOk(Grid, g);
  }

  lemma SameDevices(snapshot: Snapshot, e: Devices)
    requires forall k :: GroupOf(DevicesFrom(snapshot), k) == GroupOf(e, k)
    requires forall k :: k in e ==> e[k].order != []
    ensures DevicesFrom(snapshot) == e
  {
    forall k ensures k in DevicesFrom(snapshot) <==> k in e {
      assert GroupOf(DevicesFrom(snapshot), k) == GroupOf(e, k);
    }
    forall k | k in e ensures DevicesFrom(snapshot)[k] == e[k] {
      assert GroupOf(DevicesFrom(snapshot), k) == GroupOf(e, k);
    }
  }

  lemma TiedNames(rank: Ranking) returns (i: Instance, j: Instance)
    requires RankingOk(rank)
    ensures i == "01" && j == "1" && rank(i) == rank(j) == Some(Digits(1))
    ensures i != j && i != "" && j != "" && '/' !in i && '/' !in j
  {
    i, j := "01", "1";
    assert "01"[..1] == "0" && "0"[..0] == "" && "1"[..0] == "";
    assert Decimal.Value("0") == 0;
  }

  /** A stored instance without a sort key stays until it is removed, and until then every accepted message raises. */
  lemma {:induction false} RaisesUntilRemoved(rank: Ranking, d: Devices, messages: seq<Message>, kind: Kind, i: Instance)
    requires i in GroupOf(d, kind).leaves && rank(i).None?
    requires forall m :: m in messages ==> !(m.Empty? && m.kind == kind && m.instance == i)
    ensures i in GroupOf(Play(d, messages), kind).leaves && !AllSortable(rank, Play(d, messages))
    decreases |messages|
  {
    if messages != [] {
      assert messages[0] in messages;
      assert i in GroupOf(Next(d, messages[0]), kind).leaves;
      RaisesUntilRemoved(rank, Next(d, messages[0]), messages[1..], kind, i);
    } else {
      assert kind in d && !Sortable(rank, d[kind]);
    }
  }

  // ----- the authority of a reported pump mode

  /** Every pump with authority has a valid Mode among its current leaves. */
  ghost predicate ModesStored(modes: map<Instance, real>, d: Devices) {
    forall i :: i in modes ==> i in GroupOf(d, Pump).leaves && HasMode(GroupOf(d, Pump).leaves[i])
  }

  ghost predicate ModesConnected(modes: map<Instance, real>, d: Devices) {
    forall i :: i in modes ==> i in ConnectedOf(GroupOf(d, Pump))
  }

  lemma MessageKeepsModesStored(modes: map<Instance, real>, d: Devices, m: Message, now: real)
    requires ModesStored(modes, d)
    ensures ModesStored(ModesAfter(modes, d, m, now), Next(d, m))
  {
  }

  /** Over any messages from an empty reducer, authority rests on a stored mode. */
  lemma {:induction false} AuthorityIsStored(modes: map<Instance, real>, d: Devices, messages: seq<Message>, times: seq<real>)
    requires |times| == |messages| && ModesStored(modes, d)
    ensures ModesStored(PlayModes(modes, d, messages, times), Play(d, messages))
    decreases |messages|
  {
    if messages != [] {
      MessageKeepsModesStored(modes, d, messages[0], times[0]);
      AuthorityIsStored(ModesAfter(modes, d, messages[0], times[0]), Next(d, messages[0]), messages[1..], times[1..]);
    }
  }

  function PlayModes(modes: map<Instance, real>, d: Devices, messages: seq<Message>, times: seq<real>): map<Instance, real>
    requires |times| == |messages|
    decreases |messages|
  {
    if messages == [] then modes
    else PlayModes(ModesAfter(modes, d, messages[0], times[0]), Next(d, messages[0]), messages[1..], times[1..])
  }

  /** A live, valid Mode report for a pump whose last connection flag is not 1. */
  predicate ModeWhileDisconnected(d: Devices, m: Message) {
    && m.Leaf? && m.kind == Pump && m.path == "Mode" && !m.retained
    && m.payload.Some? && IsMode(m.payload.value)
    && m.instance in GroupOf(d, Pump).leaves && !Connected(GroupOf(d, Pump).leaves[m.instance])
  }

  /** A message keeps authority with connected pumps exactly when it is not such a report. */
  lemma AuthorityStaysConnected(modes: map<Instance, real>, d: Devices, m: Message, now: real)
    requires ModesStored(modes, d) && ModesConnected(modes, d)
    ensures ModesConnected(ModesAfter(modes, d, m, now), Next(d, m)) <==> !ModeWhileDisconnected(d, m)
  {
    var d', modes' := Next(d, m), ModesAfter(modes, d, m, now);
    forall i | i in modes'
      ensures i in ConnectedOf(GroupOf(d', Pump)) || (i == m.instance && ModeWhileDisconnected(d, m))
    {
      ConnectedIs(d, i);
      ConnectedIs(d', i);
    }
    if ModeWhileDisconnected(d, m) {
      assert Accepts(d, m) && m.instance in modes';
      ConnectedIs(d', m.instance);
    }
  }

  lemma ConnectedIs(d: Devices, i: Instance)
    ensures i in ConnectedOf(GroupOf(d, Pump)) <==> i in GroupOf(d, Pump).leaves && Connected(GroupOf(d, Pump).leaves[i])
  {
  }

  lemma SnapshotAuthorityIsConnected(d: Devices, now: real)
    ensures ModesStored(ModesFrom(d, now), d) && ModesConnected(ModesFrom(d, now), d)
  {
  }

  /** Two messages from an empty reducer give authority over a disconnected pump; their snapshot gives none. */
  lemma DisconnectedPumpGainsAuthority()
    ensures exists messages: seq<Message>, times: seq<real>, i: Instance ::
      && |times| == |messages| && (forall m :: m in messages ==> FromTopic(m))
      && i in PlayModes(map[], map[], messages, times)
      && i !in ModesFrom(Play(map[], messages), 0.0)
  {
    hide ModesFrom, ModesAfter, Store, Accepted;
    var flag := Leaf(Pump, "1", "Connected", Some(Num(0.0)), false);
    var mode := Leaf(Pump, "1", "Mode", Some(Num(1.0)), false);
    var d1 := Store(map[], Pump, "1", "Connected", Num(0.0));
    var d2 := Store(d1, Pump, "1", "Mode", Num(1.0));
    ReportsStored(flag, mode, d1, d2);
    var messages, times := [flag, mode], [0.0, 0.0];
    assert messages[1..] == [mode] && times[1..] == [0.0] && messages[1..][1..] == [];
    assert Play(map[], messages) == Play(d1, [mode]) == d2;
    var modes1 := ModesAfter(map[], map[], flag, 0.0);
    assert PlayModes(map[], map[], messages, times) == PlayModes(modes1, d1, [mode], [0.0]);
    assert PlayModes(modes1, d1, [mode], [0.0]) == ModesAfter(modes1, d1, mode, 0.0);
    ModeGivesAuthority(modes1, d1, mode);
  }

  lemma ReportsStored(flag: Message, mode: Message, d1: Devices, d2: Devices)
    requires flag == Leaf(Pump, "1", "Connected", Some(Num(0.0)), false) && mode == Leaf(Pump, "1", "Mode", Some(Num(1.0)), false)
    requires d1 == Store(map[], Pump, "1", "Connected", Num(0.0)) && d2 == Store(d1, Pump, "1", "Mode", Num(1.0))
    ensures Next(map[], flag) == d1 && Next(d1, mode) == d2 && "1" !in ModesFrom(d2, 0.0)
  {
    ConnectedIs(d2, "1");
  }

  lemma ModeGivesAuthority(modes: map<Instance, real>, d: Devices, mode: Message)
    requires mode == Leaf(Pump, "1", "Mode", Some(Num(1.0)), false)
    ensures "1" in ModesAfter(modes, d, mode, 0.0)
  {
  }
}
