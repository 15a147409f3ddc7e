/**
 The native telemetry reducer: raw leaves by kind and instance, and the dashboard keys they claim. A Python
 dictionary is a map with the order in which its keys came.
 `project` stands for the overlay functions, which see the connected devices of every kind as sorted lists,
 and `invalidates` for the table of keys a null leaf claims; both are arbitrary. What reads more than the
 lists - the presence flags - and what depends on them in a known way - the inventory - is written out.
 */
module CerboReducer {
  import opened Basics
  import opened InstanceOrder

  datatype Kind = System | Grid | Battery | SolarCharger | PvInverter | Vebus | AcLoad | Tank | Pump | Ev | EvCharger | Settings

  const KINDS: set<Kind> :=
    {System, Grid, Battery, SolarCharger, PvInverter, Vebus, AcLoad, Tank, Pump, Ev, EvCharger, Settings}

  /** A JSON value: a finite number, a boolean, text, null, or anything else. */
  datatype Value = Null | Num(n: real) | Bool(b: bool) | Text(s: string) | Other

  type Leaves = map<string, Value>

  /** The instances of a kind, in the order in which they were first stored. */
  datatype Group = Group(order: seq<Instance>, leaves: map<Instance, Leaves>)

  const NO_DEVICES := Group([], map[])

  type Devices = map<Kind, Group>
  type Listing = seq<(Instance, Leaves)>
  type Lists = map<Kind, Listing>

  /** A dashboard key: the three written out here, or any other by its name. */
  datatype Key = DiscoveredWaterEv | EvPresent | EvChargerPresent | Tile(name: string)

  datatype Reading = Unknown | Flag(b: bool) | Measured(r: real) | Inventory(items: seq<(Kind, Instance, Leaves)>) | Composite(id: nat)

  function Number(v: Value): Option<real> { if v.Num? then Some(v.n) else None }

  /** The configuration the reducer depends on, the tables above, and the keys whose availability is reported. */
  datatype Config = Config(
    ev: Option<Instance>,
    evCharger: Option<Instance>,
    rank: Ranking,
    project: Lists -> map<Key, Reading>,
    invalidates: (Kind, Instance, string) -> set<Key>,
    defaults: Key -> Reading,
    owned: set<Key>)

  /** The defaults of the three keys written out here and of the owned ones; others may have any. */
  ghost predicate ConfigOk(c: Config) {
    && c.defaults(DiscoveredWaterEv) == Inventory([])
    && c.defaults(EvPresent) == Flag(false)
    && c.defaults(EvChargerPresent) == Flag(false)
    && (forall k :: k in c.owned ==> c.defaults(k) == Unknown)
  }

  // ----- which leaves are accepted

  predicate ValidValue(path: string, v: Value) {
    || path == "Connected"
    || v.Null?
    || v.Num?
    || (v.Text? && path in {"CustomName", "ProductName", "Serial", "System/MinVoltageCellId", "System/MaxVoltageCellId",
                            "BatteryService", "ActiveBatteryService", "AutoSelectedBatteryService"})
  }

  const BATTERY_PATHS: set<string> := {
    "Soc", "Dc/0/Voltage", "Dc/0/Current", "Dc/0/Power", "Dc/0/Temperature", "System/MinCellVoltage",
    "System/MaxCellVoltage", "TimeToGo", "ConsumedAmphours", "InstalledCapacity"}

  predicate KnownPath(kind: Kind, path: string) {
    if path in {"ProductName", "CustomName", "Serial", "Connected"} then true
    else match kind
      case Battery => path in BATTERY_PATHS || path in {"System/MinVoltageCellId", "System/MaxVoltageCellId", "State"}
      case System =>
        || "Ac/" <= path || "Dc/Battery/" <= path || "Dc/Pv/" <= path
        || path in {"BatteryService", "ActiveBatteryService", "AutoSelectedBatteryService"}
      case SolarCharger => path in {"Yield/Power", "Dc/0/Power", "Dc/0/Voltage", "Dc/0/Current", "Pv/V"}
      case AcLoad => "Ac/" <= path
      case PvInverter => "Ac/" <= path
      case Grid => "Ac/" <= path
      case Vebus => "Ac/" <= path || "Hub4/" <= path || "Dc/" <= path || path in {"State", "Mode"}
      case Tank => path == "Level"
      case Pump => path in {"State", "Status", "Mode"}
      case Settings => path in {"Settings/CGwacs/Hub4Mode", "Settings/CGwacs/BatteryLife/State"}
      case Ev => path in {"Soc", "Ac/Power"}
      case EvCharger => path in {"Soc", "Ac/Power"}
  }

  predicate Accepted(kind: Kind, path: string, v: Value) {
    path != "" && ValidValue(path, v) && KnownPath(kind, path)
  }

  // ----- the devices

  predicate Connected(leaves: Leaves) {
    "Connected" in leaves ==> Number(leaves["Connected"]) == Some(1.0)
  }

  function GroupOf(d: Devices, kind: Kind): Group { if kind in d then d[kind] else NO_DEVICES }

  function ConnectedOf(g: Group): set<Instance> { set i | i in g.leaves && Connected(g.leaves[i]) }

  ghost predicate GroupOk(kind: Kind, g: Group) {
    && Distinct(g.order) && (forall i :: i in g.order <==> i in g.leaves)
    && (forall i :: i in g.leaves ==> i != "" && '/' !in i && g.leaves[i] != map[])
    && (forall i, p :: i in g.leaves && p in g.leaves[i] ==> Accepted(kind, p, g.leaves[i][p]))
  }

  /** Every stored instance has a name without a slash and at least one leaf, all of them accepted. */
  ghost predicate DevicesOk(d: Devices) { forall k :: k in d ==> GroupOk(k, d[k]) }

  predicate Holds(d: Devices, k: Kind, i: Instance, p: string, v: Value) {
    var g := GroupOf(d, k);
    i in g.leaves && p in g.leaves[i] && g.leaves[i][p] == v
  }

  /** A leaf added to a group: a new instance comes last, an old one keeps its place. */
  function WithLeaf(g: Group, i: Instance, path: string, v: Value): Group {
    Group(
      if i in g.leaves then g.order else g.order + [i],
      g.leaves[i := (if i in g.leaves then g.leaves[i] else map[])[path := v]])
  }

  function Without(g: Group, i: Instance): Group {
    Group(Kept(g.order, g.leaves.Keys - {i}), g.leaves - {i})
  }

  function Store(d: Devices, kind: Kind, i: Instance, path: string, v: Value): Devices {
    d[kind := WithLeaf(GroupOf(d, kind), i, path, v)]
  }

  lemma WithLeafOk(kind: Kind, g: Group, i: Instance, path: string, v: Value)
    requires GroupOk(kind, g) && i != "" && '/' !in i && Accepted(kind, path, v)
    ensures GroupOk(kind, WithLeaf(g, i, path, v))
  {
    var h := WithLeaf(g, i, path, v);
    assert path in h.leaves[i];
  }

  lemma WithoutOk(kind: Kind, g: Group, i: Instance)
    requires GroupOk(kind, g)
    ensures GroupOk(kind, Without(g, i))
  {
    KeptIs(g.order, g.leaves.Keys - {i});
  }

  lemma StoreOk(d: Devices, kind: Kind, i: Instance, path: string, v: Value)
    requires DevicesOk(d) && i != "" && '/' !in i && Accepted(kind, path, v)
    ensures DevicesOk(Store(d, kind, i, path, v))
  {
    WithLeafOk(kind, GroupOf(d, kind), i, path, v);
  }

  // ----- the lists of connected devices

  function Pairs(order: seq<Instance>, leaves: map<Instance, Leaves>): (r: Listing)
    ensures |r| == |order|
  {
    seq(|order|, n requires 0 <= n < |order| => (order[n], if order[n] in leaves then leaves[order[n]] else map[]))
  }

  /** What `_devices` gives: the instances sorted by their keys, ties in order of arrival, connected ones only. */
  function Listed(rank: Ranking, g: Group): Listing { Pairs(Kept(Sort(rank, g.order), ConnectedOf(g)), g.leaves) }

  function ListsOf(rank: Ranking, d: Devices): Lists { map k | k in KINDS :: Listed(rank, GroupOf(d, k)) }

  /** Every stored instance, connected or not, has a sort key; listing the devices raises otherwise. */
  predicate Sortable(rank: Ranking, g: Group) { forall i :: i in g.leaves ==> rank(i).Some? }

  predicate AllSortable(rank: Ranking, d: Devices) { forall k :: k in d ==> Sortable(rank, d[k]) }

  function ListOf(l: Lists, kind: Kind): Listing { if kind in l then l[kind] else [] }

  // ----- the overlay

  /** Whether `_selected_ev` finds a device: the configured one, or any at all. */
  predicate HasSelected(l: Listing, configured: Option<Instance>) {
    match configured
    case Some(i) => exists n :: 0 <= n < |l| && l[n].0 == i
    case None => l != []
  }

  function Tagged(kind: Kind, l: Listing): seq<(Kind, Instance, Leaves)> {
    seq(|l|, n requires 0 <= n < |l| => (kind, l[n].0, l[n].1))
  }

  /** The connected water and EV devices. */
  function InventoryOf(l: Lists): seq<(Kind, Instance, Leaves)> {
    Tagged(Tank, ListOf(l, Tank)) + Tagged(Pump, ListOf(l, Pump)) + Tagged(Ev, ListOf(l, Ev)) + Tagged(EvCharger, ListOf(l, EvCharger))
  }

  /** A key that is written only when its condition holds. */
  function When(condition: bool, key: Key, reading: Reading): map<Key, Reading> {
    if condition then map[key := reading] else map[]
  }

  /** What the overlay functions make of the lists. */
  datatype View = View(tiles: map<Key, Reading>, inventory: seq<(Kind, Instance, Leaves)>, ev: bool, evCharger: bool)

  function ViewOf(c: Config, l: Lists): View {
    View((c.project)(l), InventoryOf(l), HasSelected(ListOf(l, Ev), c.ev), HasSelected(ListOf(l, EvCharger), c.evCharger))
  }

  /** The overlay for a view, the kinds that have an entry, and the claims. */
  function Overlay(v: View, kinds: set<Kind>, claimed: set<Key>): map<Key, Reading> {
    v.tiles - {DiscoveredWaterEv, EvPresent, EvChargerPresent}
    + When(v.inventory != [] || DiscoveredWaterEv in claimed, DiscoveredWaterEv, Inventory(v.inventory))
    + When(Ev in kinds || EvPresent in claimed, EvPresent, Flag(v.ev))
    + When(EvCharger in kinds || EvChargerPresent in claimed, EvChargerPresent, Flag(v.evCharger))
  }

  /** What an overlay shows for a key, with an absent key read as its default. */
  function Shown(c: Config, overlay: map<Key, Reading>, key: Key): Reading {
    if key in overlay then overlay[key] else (c.defaults)(key)
  }

  /** What is shown, from the view alone. */
  function ShownOf(c: Config, v: View, key: Key): Reading {
    if key == DiscoveredWaterEv then Inventory(v.inventory)
    else if key == EvPresent then Flag(v.ev)
    else if key == EvChargerPresent then Flag(v.evCharger)
    else Shown(c, v.tiles, key)
  }

  /** A kind without an entry has no selected device. */
  predicate NoneWithout(v: View, kinds: set<Kind>) { (v.ev ==> Ev in kinds) && (v.evCharger ==> EvCharger in kinds) }

  /** Claims and empty entries decide whether a key is written, never what is shown for it. */
  lemma ShownByView(c: Config, v: View, kinds: set<Kind>, claimed: set<Key>, key: Key)
    requires ConfigOk(c) && NoneWithout(v, kinds)
    ensures Shown(c, Overlay(v, kinds, claimed), key) == ShownOf(c, v, key)
  {
  }

  lemma NothingListed(c: Config, d: Devices)
    ensures NoneWithout(ViewOf(c, ListsOf(c.rank, d)), d.Keys)
  {
  }

  /** The owned keys that have a value. */
  ghost function Known(c: Config, readings: map<Key, Reading>): set<Key> {
    set k | k in c.owned && k in readings && readings[k] != Unknown
  }

  /** Every claimed key shows what the overlay gives or its default, no other key is shown, and all of the overlay is claimed. */
  ghost predicate ShowsAll(c: Config, v: View, kinds: set<Kind>, claimed: set<Key>, current: map<Key, Reading>) {
    && current.Keys == claimed && Overlay(v, kinds, claimed).Keys <= claimed
    && forall k :: k in claimed ==> current[k] == Shown(c, Overlay(v, kinds, claimed), k)
  }

  // ----- the reducer

  datatype Message = Leaf(kind: Kind, instance: Instance, path: string, payload: Option<Value>, retained: bool)
                   | Empty(kind: Kind, instance: Instance, path: string)

  /** A message is refused, or stored and shown, or stored before listing the devices raises. */
  datatype Outcome = Refused | Applied | Raised

  /** Claims the keys of the overlay and shows every claimed key. */
  method ShowView(c: Config, v: View, kinds: set<Kind>, claimed: set<Key>) returns (all: set<Key>, current: map<Key, Reading>)
    requires ConfigOk(c) && NoneWithout(v, kinds)
    ensures claimed <= all && ShowsAll(c, v, kinds, all, current)
  {
    var overlay := Overlay(v, kinds, claimed);
    all := claimed + overlay.Keys;
    current := map k | k in all :: Shown(c, overlay, k);
    forall k | k in all
      ensures current[k] == Shown(c, Overlay(v, kinds, all), k)
    {
      ShownByView(c, v, kinds, claimed, k);
      ShownByView(c, v, kinds, all, k);
    }
  }

  class Reducer {
    const config: Config
    var devices: Devices
    var claimed: set<Key>
    var current: map<Key, Reading>
    var available: set<Key>              // the owned keys reported to have a value
    var modes: map<Instance, real>       // pumps with an accepted Mode report, and when it came

    /** What holds even after an overlay raised. */
    ghost predicate Stored()
      reads this
    {
      ConfigOk(config) && DevicesOk(devices) && current.Keys <= claimed
    }

    /** Each claimed key shows what the current leaves give or its default; no other key is shown. */
    ghost predicate Valid()
      reads this
    {
      && Stored() && AllSortable(config.rank, devices)
      && ShowsAll(config, ViewOf(config, ListsOf(config.rank, devices)), devices.Keys, claimed, current)
      && available == Known(config, current)
    }

    /** What the dashboard reads for a key. */
    ghost function Reading(key: Key): Reading
      reads this
    {
      if key in current then current[key] else (config.defaults)(key)
    }

    constructor (config: Config)
      requires ConfigOk(config) && (config.project)(ListsOf(config.rank, map[])) == map[]
      ensures Valid() && this.config == config && devices == map[] && claimed == {} && modes == map[]
    {
      this.config := config;
      devices, claimed, current, available, modes := map[], {}, map[], {}, map[];
    }

    method ApplyOverlays() returns (raised: bool)
      requires Stored()
      modifies this`claimed, this`current, this`available
      ensures raised <==> !AllSortable(config.rank, devices)
      ensures old(claimed) <= claimed && Stored() && (!raised ==> Valid())
      ensures raised ==> claimed == old(claimed) && current == old(current) && available == old(available)
    {
      hide ListsOf, ViewOf, AllSortable;
      raised := !AllSortable(config.rank, devices);
      if raised {
        return;
      }
      NothingListed(config, devices);
      claimed, current := ShowView(config, ViewOf(config, ListsOf(config.rank, devices)), devices.Keys, claimed);
      available := set k | k in config.owned && k in current && current[k] != Unknown;
    }

    method ObserveMode(kind: Kind, instance: Instance, path: string, v: Value, retained: bool, now: real)
      modifies this`modes
      ensures modes == Observed(old(modes), kind, instance, path, v, retained, now)
    {
      if kind != Pump {
        return;
      }
      if path == "Connected" && Number(v) != Some(1.0) {
        modes := modes - {instance};
      }
      if path == "Mode" {
        modes := modes - {instance};
        if !retained && IsMode(v) {
          modes := modes[instance := now];
        }
      }
    }

    /** One MQTT notification; refused ones change at most the authority of a reported Mode. */
    method HandleDevice(m: Message, now: real) returns (outcome: Outcome)
      requires Stored() && m.instance != "" && '/' !in m.instance
      modifies this
      ensures Stored() && old(claimed) <= claimed
      ensures outcome == (if !Accepts(old(devices), m) then Refused else if AllSortable(config.rank, devices) then Applied else Raised)
      ensures outcome.Applied? || (outcome.Refused? && old(Valid())) ==> Valid()
      ensures !outcome.Applied? ==> current == old(current)
      ensures devices == if outcome.Refused? then old(devices) else After(old(devices), m)
      ensures modes == ModesAfter(old(modes), old(devices), m, now)
      ensures !outcome.Refused? && m.Leaf? && m.payload == Some(Null) ==> config.invalidates(m.kind, m.instance, m.path) <= claimed
    {
      hide Accepts, After, ModesAfter, AllSortable, ShowsAll, ViewOf, ListsOf, Known, DevicesOk;
      var accepted := StoreMessage(m, now);
      outcome := Refused;
      if accepted {
        var raised := ApplyOverlays();
        outcome := if raised then Raised else Applied;
      }
    }

    method StoreMessage(m: Message, now: real) returns (accepted: bool)
      requires DevicesOk(devices) && m.instance != "" && '/' !in m.instance
      modifies this`devices, this`modes, this`claimed
      ensures accepted == Accepts(old(devices), m)
      ensures devices == if accepted then After(old(devices), m) else old(devices)
      ensures modes == ModesAfter(old(modes), old(devices), m, now)
      ensures DevicesOk(devices) && (!accepted ==> claimed == old(claimed))
      ensures claimed == old(claimed)
        + if accepted && m.Leaf? && m.payload == Some(Null) then config.invalidates(m.kind, m.instance, m.path) else {}
    {
      if m.kind == Pump && m.path == "Mode" {
        modes := modes - {m.instance};
      }
      match m {
        case Empty(kind, instance, _) => accepted := RemoveDevice(kind, instance);
        case Leaf(kind, instance, path, payload, retained) =>
          accepted := StoreLeaf(kind, instance, path, payload, retained, now);
      }
    }

    method RemoveDevice(kind: Kind, instance: Instance) returns (accepted: bool)
      requires DevicesOk(devices)
      modifies this`devices, this`modes
      ensures accepted == (instance in GroupOf(old(devices), kind).leaves)
      ensures devices == if accepted then old(devices)[kind := Without(old(devices)[kind], instance)] else old(devices)
      ensures modes == if accepted && kind == Pump then old(modes) - {instance} else old(modes)
      ensures DevicesOk(devices)
    {
      accepted := instance in GroupOf(devices, kind).leaves;
      if accepted {
        WithoutOk(kind, devices[kind], instance);
        devices := devices[kind := Without(devices[kind], instance)];
        if kind == Pump {
          modes := modes - {instance};
        }
      }
    }

    method StoreLeaf(kind: Kind, instance: Instance, path: string, payload: Option<Value>, retained: bool, now: real)
      returns (accepted: bool)
      requires DevicesOk(devices) && instance != "" && '/' !in instance
      modifies this`devices, this`modes, this`claimed
      ensures accepted == (payload.Some? && Accepted(kind, path, payload.value))
      ensures devices == if accepted then Store(old(devices), kind, instance, path, payload.value) else old(devices)
      ensures modes == if accepted then Observed(old(modes), kind, instance, path, payload.value, retained, now) else old(modes)
      ensures DevicesOk(devices)
      ensures claimed == old(claimed) + if accepted && payload.value.Null? then config.invalidates(kind, instance, path) else {}
    {
      hide Store, Observed, Accepted;
      accepted := payload.Some? && Accepted(kind, path, payload.value);
      if accepted {
        StoreOk(devices, kind, instance, path, payload.value);
        var next := Store(devices, kind, instance, path, payload.value);
        devices := next;
        ObserveMode(kind, instance, path, payload.value, retained, now);
        if payload.value.Null? {
          claimed := claimed + (config.invalidates)(kind, instance, path);
        }
      }
    }

    method Clear()
      requires Stored()
      modifies this
      ensures Valid() && old(claimed) <= claimed && devices == map[] && modes == map[]
    {
      devices, modes := map[], map[];
      var _ := ApplyOverlays();
    }

    /** The entries of one kind, in their order. */
    method BuildGroup(kind: Kind, entries: Entries) returns (g: Group)
      modifies this`claimed
      ensures g == GroupFrom(kind, entries) && old(claimed) <= claimed
      ensures NullsClaimed(config, kind, entries, claimed)
    {
      g := NO_DEVICES;
      for n := 0 to |entries|
        invariant g == GroupFrom(kind, entries[..n]) && old(claimed) <= claimed
        invariant NullsClaimed(config, kind, entries[..n], claimed)
      {
        var (key, v) := entries[n];
        assert entries[..n + 1][..n] == entries[..n];
        if EntryOk(kind, key, v) {
          var (instance, path) := Split(key);
          g := WithLeaf(g, instance, path, v);
          if v.Null? {
            claimed := claimed + (config.invalidates)(kind, instance, path);
          }
        }
      }
      assert entries[..|entries|] == entries;
    }

    method BuildDevices(snapshot: Snapshot) returns (built: Devices)
      modifies this`claimed
      ensures built == DevicesFrom(snapshot) && old(claimed) <= claimed
      ensures forall k :: k in snapshot ==> NullsClaimed(config, k, snapshot[k], claimed)
    {
      built := map[];
      var left := snapshot.Keys;
      while left != {}
        invariant left <= snapshot.Keys && old(claimed) <= claimed
        invariant built == DevicesFrom(map k | k in snapshot && k !in left :: snapshot[k])
        invariant forall k :: k in snapshot && k !in left ==> NullsClaimed(config, k, snapshot[k], claimed)
        modifies this`claimed
        decreases |left|
      {
        var kind :| kind in left;
        ghost var done := map k | k in snapshot && k !in left :: snapshot[k];
        var g := BuildGroup(kind, snapshot[kind]);
        left := left - {kind};
        OneKindMore(done, kind, snapshot[kind]);
        built := if g.order == [] then built else built[kind := g];
        assert (map k | k in snapshot && k !in left :: snapshot[k]) == done[kind := snapshot[kind]];
      }
      assert (map k | k in snapshot && k !in left :: snapshot[k]) == snapshot;
    }

    /** Replace all leaves by a snapshot, entry by entry; what is not a known leaf is skipped. */
    method ReplaceSnapshot(snapshot: Snapshot, now: real) returns (raised: bool)
      requires Stored()
      modifies this
      ensures Stored() && old(claimed) <= claimed && devices == DevicesFrom(snapshot)
      ensures raised <==> !AllSortable(config.rank, devices)
      ensures if raised then current == old(current) else Valid()
      ensures modes == if Sortable(config.rank, GroupOf(devices, Pump)) then ModesFrom(devices, now) else old(modes)
      ensures forall k :: k in snapshot ==> NullsClaimed(config, k, snapshot[k], claimed)
    {
      hide DevicesFrom, ModesFrom;
      DevicesFromOk(snapshot);
      devices := BuildDevices(snapshot);
      raised := !Sortable(config.rank, GroupOf(devices, Pump));
      if !raised {
        modes := ModesFrom(devices, now);
        raised := ApplyOverlays();
      }
    }
  }

  /** The pumps a snapshot gives Mode authority: connected ones with a valid Mode. */
  function ModesFrom(d: Devices, now: real): map<Instance, real> {
    var g := GroupOf(d, Pump);
    map i | i in ConnectedOf(g) && HasMode(g.leaves[i]) :: now
  }

  predicate IsMode(v: Value) { v.Num? && (v.n == 0.0 || v.n == 1.0 || v.n == 2.0) }

  predicate HasMode(leaves: Leaves) { "Mode" in leaves && IsMode(leaves["Mode"]) }

  function Observed(modes: map<Instance, real>, kind: Kind, instance: Instance, path: string, v: Value, retained: bool, now: real)
    : map<Instance, real>
  {
    if kind == Pump && path == "Connected" && Number(v) != Some(1.0) then modes - {instance}
    else if kind == Pump && path == "Mode" then
      if !retained && IsMode(v) then modes[instance := now] else modes - {instance}
    else modes
  }

  predicate Accepts(d: Devices, m: Message) {
    match m
    case Empty(kind, instance, _) => instance in GroupOf(d, kind).leaves
    case Leaf(kind, _, path, payload, _) => payload.Some? && Accepted(kind, path, payload.value)
  }

  function After(d: Devices, m: Message): Devices
    requires Accepts(d, m)
  {
    match m
    case Empty(kind, instance, _) => d[kind := Without(GroupOf(d, kind), instance)]
    case Leaf(kind, instance, path, payload, _) => Store(d, kind, instance, path, payload.value)
  }

  function ModesAfter(modes: map<Instance, real>, d: Devices, m: Message, now: real): map<Instance, real> {
    var cut := if m.kind == Pump && m.path == "Mode" then modes - {m.instance} else modes;
    if !Accepts(d, m) then cut
    else match m
      case Empty(kind, instance, _) => if kind == Pump then cut - {instance} else cut
      case Leaf(kind, instance, path, payload, retained) => Observed(cut, kind, instance, path, payload.value, retained, now)
  }

  // ----- snapshots

  /** The text before and after the first slash. */
  function Split(key: string): (string, string)
    requires '/' in key
  {
    if key[0] == '/' then ("", key[1..])
    else var (head, tail) := Split(key[1..]); ([key[0]] + head, tail)
  }

  type Entries = seq<(string, Value)>

  /** The entries of each kind, in their order; a kind whose value is no object is absent. */
  type Snapshot = map<Kind, Entries>

  predicate EntryOk(kind: Kind, key: string, v: Value) {
    '/' in key && Split(key).0 != "" && Accepted(kind, Split(key).1, v)
  }

  function GroupFrom(kind: Kind, entries: Entries): Group {
    if entries == [] then NO_DEVICES
    else
      var (g, (key, v)) := (GroupFrom(kind, entries[..|entries| - 1]), entries[|entries| - 1]);
      if EntryOk(kind, key, v) then WithLeaf(g, Split(key).0, Split(key).1, v) else g
  }

  /** Only kinds with an acceptable leaf get an entry. */
  function DevicesFrom(snapshot: Snapshot): Devices {
    map k | k in snapshot && GroupFrom(k, snapshot[k]).order != [] :: GroupFrom(k, snapshot[k])
  }

  lemma {:induction false} OneKindMore(snapshot: Snapshot, kind: Kind, entries: Entries)
    requires kind !in snapshot
    ensures var g := GroupFrom(kind, entries);
      DevicesFrom(snapshot[kind := entries]) == if g.order == [] then DevicesFrom(snapshot) else DevicesFrom(snapshot)[kind := g]
  {
  }

  ghost predicate NullsClaimed(c: Config, kind: Kind, entries: Entries, claimed: set<Key>) {
    forall e :: e in entries && EntryOk(kind, e.0, e.1) && e.1.Null? ==>
      c.invalidates(kind, Split(e.0).0, Split(e.0).1) <= claimed
  }

  lemma DevicesFromOk(snapshot: Snapshot)
    ensures DevicesOk(DevicesFrom(snapshot))
  {
    forall k | k in snapshot ensures GroupOk(k, GroupFrom(k, snapshot[k])) {
      GroupFromOk(k, snapshot[k]);
    }
  }

  lemma {:induction false} GroupFromOk(kind: Kind, entries: Entries)
    ensures GroupOk(kind, GroupFrom(kind, entries))
  {
    if entries != [] {
      var most, e := entries[..|entries| - 1], entries[|entries| - 1];
      GroupFromOk(kind, most);
      if EntryOk(kind, e.0, e.1) {
        SplitJoins(e.0);
        WithLeafOk(kind, GroupFrom(kind, most), Split(e.0).0, Split(e.0).1, e.1);
      }
    }
  }

  lemma SlashIn(i: string, p: string)
    ensures '/' in i + "/" + p
  {
    assert (i + "/" + p)[|i|] == '/';
  }

  lemma {:induction false} SplitJoins(key: string)
    requires '/' in key
    ensures Split(key).0 + "/" + Split(key).1 == key && '/' !in Split(key).0
  {
    if key[0] != '/' {
      SplitJoins(key[1..]);
    }
  }

  lemma {:induction false} JoinSplits(i: string, p: string)
    requires '/' !in i
    ensures '/' in i + "/" + p && Split(i + "/" + p) == (i, p)
  {
    SlashIn(i, p);
    if i != "" {
      SlashIn(i[1..], p);
      assert (i + "/" + p)[1..] == i[1..] + "/" + p && i == [i[0]] + i[1..];
      JoinSplits(i[1..], p);
    } else {
      assert (i + "/" + p)[1..] == p;
    }
  }
}
