/**
 What the reducer makes of messages and devices, case by case: which leaves it stores, which pumps have Mode
 authority afterwards, and what it says of electric vehicles and of the inventory.
 */
module CerboOutcomes {
  import opened Basics
  import opened InstanceOrder
  import opened CerboReducer
  import opened ListingOrder

  // ----- which leaves are stored

  const NAMES: set<string> := {"CustomName", "ProductName", "Serial"}
  const SERVICES: set<string> := {"BatteryService", "ActiveBatteryService", "AutoSelectedBatteryService"}
  const CELLS: set<string> := {"System/MinVoltageCellId", "System/MaxVoltageCellId"}

  predicate Begins(path: string, start: string) { |start| <= |path| && path[..|start|] == start }

  /** The paths of one kind, beside the names and the connection that each kind has. */
  predicate IsOwnPath(kind: Kind, path: string) {
    match kind
    case System => Begins(path, "Ac/") || Begins(path, "Dc/Battery/") || Begins(path, "Dc/Pv/") || path in SERVICES
    case Grid | PvInverter | AcLoad => Begins(path, "Ac/")
    case Vebus => Begins(path, "Ac/") || Begins(path, "Hub4/") || Begins(path, "Dc/") || path == "State" || path == "Mode"
    case Battery =>
      || path in CELLS
      || path in {"State", "Soc", "TimeToGo", "ConsumedAmphours", "InstalledCapacity", "System/MinCellVoltage", "System/MaxCellVoltage"}
      || path in {"Dc/0/Voltage", "Dc/0/Current", "Dc/0/Power", "Dc/0/Temperature"}
    case SolarCharger => path in {"Yield/Power", "Pv/V", "Dc/0/Power", "Dc/0/Voltage", "Dc/0/Current"}
    case Tank => path == "Level"
    case Pump => path == "State" || path == "Status" || path == "Mode"
    case Ev | EvCharger => path == "Soc" || path == "Ac/Power"
    case Settings => path == "Settings/CGwacs/Hub4Mode" || path == "Settings/CGwacs/BatteryLife/State"
  }

  /** A connection may be anything, a name may be text, and everything else is a finite number or null. */
  predicate MayHold(path: string, v: Value) {
    match v
    case Null => true
    case Num(_) => true
    case Text(_) => path == "Connected" || path in NAMES || path in SERVICES || path in CELLS
    case Bool(_) | Other => path == "Connected"
  }

  lemma {:induction false} ValueExactly(path: string, v: Value)
    ensures ValidValue(path, v) <==> MayHold(path, v)
  {
  }

  lemma PathExactly(kind: Kind, path: string)
    ensures KnownPath(kind, path) <==> path in NAMES || path == "Connected" || IsOwnPath(kind, path)
  {
    hide Begins;
    Starts(path);
  }

  lemma Starts(path: string)
    ensures forall start: string :: Begins(path, start) <==> start <= path
  {
  }

  /** A leaf is stored exactly when its path has a name, belongs to its kind and may hold the value. */
  lemma StoredExactly(kind: Kind, path: string, v: Value)
    ensures Accepted(kind, path, v) <==>
      path != "" && (path in NAMES || path == "Connected" || IsOwnPath(kind, path)) && MayHold(path, v)
  {
    hide ValidValue, KnownPath, IsOwnPath, MayHold;
    ValueExactly(path, v);
    PathExactly(kind, path);
  }

  // ----- what one message changes

  /** The message stores this leaf. */
  ghost predicate Stores(m: Message, k: Kind, i: Instance, p: string, v: Value) {
    m.Leaf? && m.kind == k && m.instance == i && m.path == p && m.payload == Some(v)
  }

  /** The message replaces the value of this leaf, or takes away its whole device. */
  ghost predicate Displaces(m: Message, k: Kind, i: Instance, p: string) {
    m.kind == k && m.instance == i && (m.Empty? || m.path == p)
  }

  /** An accepted message stores its own leaf or takes away its own device, and everything else stays; nothing changes place. */
  lemma MessageOutcome(d: Devices, m: Message, k: Kind, i: Instance, p: string, v: Value)
    requires Accepts(d, m)
    ensures Holds(After(d, m), k, i, p, v) <==> Stores(m, k, i, p, v) || (Holds(d, k, i, p, v) && !Displaces(m, k, i, p))
  {
    hide Accepts, After, GroupOf, WithLeaf, Without, In, Holds;
    GroupAfter(d, m, k);
    HoldsIn(d, k, i, p, v);
    HoldsIn(After(d, m), k, i, p, v);
    if m.Leaf? {
      LeafAdded(GroupOf(d, m.kind), m.instance, m.path, m.payload.value, i, p, v);
    } else {
      DeviceGone(GroupOf(d, m.kind), m.instance, i, p, v);
    }
  }

  lemma HoldsIn(d: Devices, k: Kind, i: Instance, p: string, v: Value)
    ensures Holds(d, k, i, p, v) <==> In(GroupOf(d, k), i, p, v)
  {
  }

  lemma GroupAfter(d: Devices, m: Message, k: Kind)
    requires Accepts(d, m)
    ensures m.Leaf? ==> m.payload.Some?
    ensures GroupOf(After(d, m), k) ==
      if k != m.kind then GroupOf(d, k)
      else if m.Leaf? then WithLeaf(GroupOf(d, k), m.instance, m.path, m.payload.value)
      else Without(GroupOf(d, k), m.instance)
  {
    hide WithLeaf, Without;
  }

  predicate In(g: Group, i: Instance, p: string, v: Value) { i in g.leaves && p in g.leaves[i] && g.leaves[i][p] == v }

  lemma LeafAdded(g: Group, j: Instance, q: string, w: Value, i: Instance, p: string, v: Value)
    ensures In(WithLeaf(g, j, q, w), i, p, v) <==> if i == j && p == q then v == w else In(g, i, p, v)
  {
  }

  lemma DeviceGone(g: Group, j: Instance, i: Instance, p: string, v: Value)
    ensures In(Without(g, j), i, p, v) <==> i != j && In(g, i, p, v)
  {
  }

  /** Devices that stay keep their order, and a device that is new comes last. */
  lemma MessageOrder(d: Devices, m: Message, k: Kind, a: Instance, b: Instance)
    requires DevicesOk(d) && Accepts(d, m) && a != b
    requires a in GroupOf(After(d, m), k).order && b in GroupOf(After(d, m), k).order
    ensures Precedes(GroupOf(After(d, m), k).order, a, b) <==>
      if a in GroupOf(d, k).order && b in GroupOf(d, k).order then Precedes(GroupOf(d, k).order, a, b) else b !in GroupOf(d, k).order
  {
    var s, t := GroupOf(d, k).order, GroupOf(After(d, m), k).order;
    if k == m.kind && m.Empty? {
      KeptIs(s, GroupOf(d, k).leaves.Keys - {m.instance});
    } else if t != s {
      AddedLast(s, m.instance, a, b);
    }
  }

  lemma AddedLast(s: seq<Instance>, i: Instance, a: Instance, b: Instance)
    requires Distinct(s) && i !in s && a != b && a in s + [i] && b in s + [i]
    ensures Precedes(s + [i], a, b) <==> if a in s && b in s then Precedes(s, a, b) else b !in s
  {
    var t := s + [i];
    forall m, n | 0 <= m < n < |s| && s[m] == a && s[n] == b ensures Precedes(t, a, b) {
      assert t[m] == a && t[n] == b;
    }
    if b == i {
      var m :| 0 <= m < |s| && s[m] == a;
      assert t[m] == a && t[|s|] == b;
    }
  }

  // ----- Mode authority

  /** A live report of a valid Mode. */
  predicate GivesMode(m: Message, i: Instance) {
    && m.Leaf? && m.kind == Pump && m.instance == i && m.path == "Mode" && !m.retained
    && (m.payload == Some(Num(0.0)) || m.payload == Some(Num(1.0)) || m.payload == Some(Num(2.0)))
  }

  /** Any report of the Mode, the removal of a stored pump, and a report that the pump is not connected. */
  predicate EndsMode(d: Devices, m: Message, i: Instance) {
    && m.kind == Pump && m.instance == i
    && (m.path == "Mode" || (m.Empty? && i in GroupOf(d, Pump).leaves)
        || (m.Leaf? && m.path == "Connected" && m.payload.Some? && m.payload != Some(Num(1.0))))
  }

  lemma ModeIsKnown()
    ensures Accepted(Pump, "Mode", Num(0.0)) && Accepted(Pump, "Mode", Num(1.0)) && Accepted(Pump, "Mode", Num(2.0))
    ensures forall v :: Accepted(Pump, "Connected", v)
  {
  }

  /** A pump has authority after a message exactly when the message gives it, now, or it had it and the message does not end it. */
  lemma ModesExactly(modes: map<Instance, real>, d: Devices, m: Message, now: real, i: Instance)
    ensures var r := ModesAfter(modes, d, m, now);
      && (i in r <==> GivesMode(m, i) || (i in modes && !EndsMode(d, m, i)))
      && (i in r ==> r[i] == if GivesMode(m, i) then now else modes[i])
  {
    hide Accepted;
    ModeIsKnown();
    if m.instance == i && m.kind == Pump {
      OwnMessage(modes, d, m, now);
    }
  }

  lemma OwnMessage(modes: map<Instance, real>, d: Devices, m: Message, now: real)
    requires m.kind == Pump
    ensures var i, r := m.instance, ModesAfter(modes, d, m, now);
      && (i in r <==> GivesMode(m, i) || (i in modes && !EndsMode(d, m, i)))
      && (i in r ==> r[i] == if GivesMode(m, i) then now else modes[i])
  {
    hide Accepted;
    ModeIsKnown();
    if m.Leaf? && m.payload.Some? {
      IsModeNumber(m.payload.value);
    }
  }

  lemma IsModeNumber(v: Value)
    ensures IsMode(v) <==> v == Num(0.0) || v == Num(1.0) || v == Num(2.0)
    ensures Number(v) == Some(1.0) <==> v == Num(1.0)
  {
  }

  /** A snapshot gives authority to the connected pumps that it holds a valid Mode of, and to no others. */
  lemma SnapshotModesExactly(d: Devices, now: real, i: Instance)
    ensures i in ModesFrom(d, now) <==>
      && IsConnected(GroupOf(d, Pump), i)
      && (Holds(d, Pump, i, "Mode", Num(0.0)) || Holds(d, Pump, i, "Mode", Num(1.0)) || Holds(d, Pump, i, "Mode", Num(2.0)))
    ensures i in ModesFrom(d, now) ==> ModesFrom(d, now)[i] == now
  {
    var g := GroupOf(d, Pump);
    if i in g.leaves && "Mode" in g.leaves[i] {
      IsModeNumber(g.leaves[i]["Mode"]);
    }
  }

  // ----- vehicles and the inventory

  /** A connected device of the kind: the configured one, or any where none is configured. */
  ghost predicate IsPresent(d: Devices, kind: Kind, configured: Option<Instance>) {
    match configured
    case Some(i) => IsConnected(GroupOf(d, kind), i)
    case None => exists i :: IsConnected(GroupOf(d, kind), i)
  }

  lemma SelectedExactly(rank: Ranking, d: Devices, kind: Kind, configured: Option<Instance>)
    requires DevicesOk(d)
    ensures HasSelected(ListOf(ListsOf(rank, d), kind), configured) <==> IsPresent(d, kind, configured)
  {
    hide ListsOf;
    ListedExactly(rank, d, kind);
    var l := ListsOf(rank, d)[kind];
    if l != [] {
      assert IsConnected(GroupOf(d, kind), l[0].0);
    }
  }

  /** The inventory has the connected water and EV devices, kind after kind, each kind in its listed order. */
  ghost predicate IsInventory(d: Devices, l: Lists, items: seq<(Kind, Instance, Leaves)>) {
    && (forall item :: item in items <==>
          (item.0 == Tank || item.0 == Pump || item.0 == Ev || item.0 == EvCharger)
          && IsConnected(GroupOf(d, item.0), item.1) && item.2 == GroupOf(d, item.0).leaves[item.1])
    && (forall a, b :: 0 <= a < b < |items| ==>
          Stage(items[a].0) < Stage(items[b].0)
          || (items[a].0 == items[b].0 && items[a].0 in l && StandsBefore(l[items[a].0], items[a].1, items[b].1)))
  }

  function Stage(k: Kind): nat {
    match k case Tank => 0 case Pump => 1 case Ev => 2 case EvCharger => 3 case _ => 4
  }

  lemma TaggedIs(kind: Kind, l: Listing)
    ensures forall item :: item in Tagged(kind, l) <==> item.0 == kind && (item.1, item.2) in l
  {
    forall item: (Kind, Instance, Leaves) | item.0 == kind && (item.1, item.2) in l ensures item in Tagged(kind, l) {
      var n :| 0 <= n < |l| && l[n] == (item.1, item.2);
      assert Tagged(kind, l)[n] == item;
    }
  }

  lemma InListing(rank: Ranking, d: Devices, kind: Kind)
    requires DevicesOk(d)
    ensures kind in ListsOf(rank, d)
    ensures forall i, leaves: Leaves :: (i, leaves) in ListsOf(rank, d)[kind] <==>
      IsConnected(GroupOf(d, kind), i) && leaves == GroupOf(d, kind).leaves[i]
  {
    hide ListsOf, IsConnected;
    ListedExactly(rank, d, kind);
    var l, g := ListsOf(rank, d)[kind], GroupOf(d, kind);
    ConnectedStored(g);
    forall i, leaves: Leaves ensures (i, leaves) in l <==> IsConnected(g, i) && leaves == g.leaves[i] {
      if IsConnected(g, i) {
        var n :| 0 <= n < |l| && l[n].0 == i;
        assert l[n] == (i, g.leaves[i]);
      }
    }
  }

  lemma ConnectedStored(g: Group)
    ensures forall i :: IsConnected(g, i) ==> i in g.leaves
  {
  }

  lemma InventoryExactly(rank: Ranking, d: Devices)
    requires DevicesOk(d)
    ensures IsInventory(d, ListsOf(rank, d), InventoryOf(ListsOf(rank, d)))
  {
    hide ListsOf, IsConnected, StandsBefore, Tagged;
    var l := ListsOf(rank, d);
    InventoryHas(rank, d, l);
    InventoryOrdered(rank, d, l);
  }

  lemma InventoryHas(rank: Ranking, d: Devices, l: Lists)
    requires DevicesOk(d) && l == ListsOf(rank, d)
    ensures forall k: Kind :: k in l
    ensures forall item :: item in InventoryOf(l) <==>
      (item.0 == Tank || item.0 == Pump || item.0 == Ev || item.0 == EvCharger)
      && IsConnected(GroupOf(d, item.0), item.1) && item.2 == GroupOf(d, item.0).leaves[item.1]
  {
    hide ListsOf, Tagged;
    forall k: Kind ensures k in l && (forall item :: item in Tagged(k, l[k]) <==>
      item.0 == k && IsConnected(GroupOf(d, k), item.1) && item.2 == GroupOf(d, k).leaves[item.1])
    {
      InListing(rank, d, k);
      TaggedIs(k, l[k]);
    }
    assert forall item :: item in InventoryOf(l) <==>
      item in Tagged(Tank, l[Tank]) || item in Tagged(Pump, l[Pump]) || item in Tagged(Ev, l[Ev]) || item in Tagged(EvCharger, l[EvCharger]);
  }

  lemma InventoryOrdered(rank: Ranking, d: Devices, l: Lists)
    requires forall k: Kind :: k in l
    ensures var items := InventoryOf(l);
      forall a, b :: 0 <= a < b < |items| ==>
        Stage(items[a].0) < Stage(items[b].0)
        || (items[a].0 == items[b].0 && StandsBefore(l[items[a].0], items[a].1, items[b].1))
  {
  }

  /** What the dashboard says of vehicles and chargers, and the inventory it shows, whatever was claimed before. */
  lemma PresenceExactly(c: Config, d: Devices, claimed: set<Key>)
    requires ConfigOk(c) && DevicesOk(d)
    ensures var overlay := Overlay(ViewOf(c, ListsOf(c.rank, d)), d.Keys, claimed);
      && (Shown(c, overlay, EvPresent) == Flag(true) <==> IsPresent(d, Ev, c.ev))
      && (Shown(c, overlay, EvPresent) == Flag(false) <==> !IsPresent(d, Ev, c.ev))
      && (Shown(c, overlay, EvChargerPresent) == Flag(true) <==> IsPresent(d, EvCharger, c.evCharger))
      && (Shown(c, overlay, EvChargerPresent) == Flag(false) <==> !IsPresent(d, EvCharger, c.evCharger))
      && Shown(c, overlay, DiscoveredWaterEv).Inventory?
      && IsInventory(d, ListsOf(c.rank, d), Shown(c, overlay, DiscoveredWaterEv).items)
  {
    hide ListsOf, IsPresent, IsInventory, InventoryOf, HasSelected, Overlay, Shown;
    var v := ViewOf(c, ListsOf(c.rank, d));
    NothingListed(c, d);
    ShownByView(c, v, d.Keys, claimed, EvPresent);
    ShownByView(c, v, d.Keys, claimed, EvChargerPresent);
    ShownByView(c, v, d.Keys, claimed, DiscoveredWaterEv);
    SelectedExactly(c.rank, d, Ev, c.ev);
    SelectedExactly(c.rank, d, EvCharger, c.evCharger);
    InventoryExactly(c.rank, d);
  }

  /** Once written, the three keys stay written; before that, each needs a device or an entry of its kind. */
  lemma WrittenExactly(c: Config, d: Devices, claimed: set<Key>)
    requires DevicesOk(d)
    ensures var keys := Overlay(ViewOf(c, ListsOf(c.rank, d)), d.Keys, claimed).Keys;
      && (EvPresent in keys <==> Ev in d || EvPresent in claimed)
      && (EvChargerPresent in keys <==> EvCharger in d || EvChargerPresent in claimed)
      && (DiscoveredWaterEv in keys <==>
            || DiscoveredWaterEv in claimed
            || IsPresent(d, Tank, None) || IsPresent(d, Pump, None) || IsPresent(d, Ev, None) || IsPresent(d, EvCharger, None))
  {
    hide ListsOf, IsPresent;
    var l := ListsOf(c.rank, d);
    forall k: Kind ensures k in l && (l[k] != [] <==> IsPresent(d, k, None)) {
      ListedExactly(c.rank, d, k);
      SelectedExactly(c.rank, d, k, None);
    }
  }
}
