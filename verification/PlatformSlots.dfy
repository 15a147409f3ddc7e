/**
 Notification slots of the Venus platform, kept per place: single leaves change a slot in place, a snapshot
 rebuilds the table, a disconnect keeps only what was dismissed. A dismissed banner stays dismissed until
 its event time changes to another valid one. Reading text as numbers is left to `Reader`.
 */
module PlatformSlots {
  import opened Basics
  import Decimal

  datatype Value = Null | Bool(b: bool) | Num(n: real) | Text(t: string) | Other

  datatype Field = Description | DeviceName | Service | DateTime | Type | Active | Acknowledged | Silenced

  /** An instance and a slot number. */
  type Place = (string, nat)

  datatype Slot = Slot(
    description: Option<string>, deviceName: Option<string>, service: Option<string>,
    dateTime: Option<int>, lastValid: Option<int>,
    notifType: Option<int>, pushTypeKnown: bool,
    active: Option<bool>, acknowledged: Option<bool>, silenced: Option<bool>,
    dismissed: bool)

  const BLANK := Slot(None, None, None, None, None, None, false, None, None, None, false)

  /** How text reads: as an exact finite decimal, stripped of blanks, in lower case; and how a number is shown. */
  datatype Reader = Reader(
    decimal: string -> Option<real>, stripped: string -> string, lowered: string -> string, shown: Value -> string)

  const LATEST_TIME: real := 253402300799.0

  /** Longer text is not converted to a number. */
  const MAX_DIGITS: nat := 4300

  // ----- leaf keys: <instance>/Notifications/<slot>/<field>

  function Parts(key: string): (parts: seq<string>)
    ensures |parts| > 0
  {
    if key == "" then [""]
    else
      var rest := Parts(key[1..]);
      if key[0] == '/' then [""] + rest else [[key[0]] + rest[0]] + rest[1..]
  }

  predicate Digits(s: string) { s != "" && Decimal.AllDigits(s) }

  function FieldOf(name: string): Option<Field> {
    if name == "Description" then Some(Description)
    else if name == "DeviceName" then Some(DeviceName)
    else if name == "Service" then Some(Service)
    else if name == "DateTime" then Some(DateTime)
    else if name == "Type" then Some(Type)
    else if name == "Active" then Some(Active)
    else if name == "Acknowledged" then Some(Acknowledged)
    else if name == "Silenced" then Some(Silenced)
    else None
  }

  function ParseKey(key: string): Option<(Place, Field)> {
    var parts := Parts(key);
    if |parts| != 4 || parts[1] != "Notifications" then None
    else if !Digits(parts[0]) || !Digits(parts[2]) || FieldOf(parts[3]).None? then None
    else if |parts[2]| > MAX_DIGITS || Decimal.Value(parts[2]) > 20 then None
    else Some(((parts[0], Decimal.Value(parts[2])), FieldOf(parts[3]).value))
  }

  // ----- values

  function AlarmValue(r: Reader, v: Value): Option<int> {
    match v
    case Null => Some(0)
    case Num(n) => if n == 0.0 || n == 1.0 || n == 2.0 then Some(n.Floor) else None
    case Text(t) =>
      (match (r.decimal)(t)
       case Some(n) => if n == 0.0 || n == 1.0 || n == 2.0 then Some(n.Floor) else None
       case None => None)
    case _ => None
  }

  function AsFlag(r: Reader, v: Value): Option<bool> {
    match v
    case Bool(b) => Some(b)
    case Num(n) => if n == 0.0 then Some(false) else if n == 1.0 then Some(true) else None
    case Text(t) =>
      var word := (r.lowered)((r.stripped)(t));
      if word == "1" || word == "true" then Some(true)
      else if word == "0" || word == "false" then Some(false)
      else None
    case _ => None
  }

  function AsText(r: Reader, v: Value): Option<string> {
    match v
    case Text(t) => if (r.stripped)(t) == "" then None else Some((r.stripped)(t))
    case Bool(_) => Some((r.shown)(v))
    case Num(_) => Some((r.shown)(v))
    case _ => None
  }

  /** Whole seconds after the epoch and within RFC 3339; anything else is no time. */
  function EventTime(r: Reader, v: Value): Option<int> {
    var number :=
      match v
      case Num(n) => Some(n)
      case Text(t) => (r.decimal)(t)
      case _ => None;
    if number.Some? && 0.0 < number.value <= LATEST_TIME && number.value == number.value.Floor as real
    then Some(number.value.Floor) else None
  }

  predicate ValidValue(r: Reader, field: Field, v: Value) {
    if v.Null? then true
    else match field
      case DateTime => v.Text? || v.Num? || v.Bool?
      case Description => v.Text?
      case DeviceName => v.Text?
      case Service => v.Text?
      case Type => AlarmValue(r, v).Some?
      case _ => AsFlag(r, v).Some?
  }

  // ----- one leaf

  function WithTime(slot: Slot, time: Option<int>): Slot {
    if time.None? then slot.(dateTime := None)
    else slot.(
      dismissed := slot.dismissed && time == slot.lastValid,
      lastValid := time,
      dateTime := time)
  }

  function WithField(r: Reader, slot: Slot, field: Field, v: Value): Slot {
    match field
    case Description => slot.(description := AsText(r, v))
    case DeviceName => slot.(deviceName := AsText(r, v))
    case Service => slot.(service := AsText(r, v))
    case DateTime => WithTime(slot, EventTime(r, v))
    case Type => slot.(
      pushTypeKnown := v.Num? && (v.n == 0.0 || v.n == 1.0 || v.n == 2.0),
      notifType := if v.Null? then None else AlarmValue(r, v))
    case Active => slot.(
      active := AsFlag(r, v),
      dismissed := slot.dismissed && !(AsFlag(r, v) == Some(false) && slot.active == Some(true)))
    case Acknowledged => slot.(acknowledged := AsFlag(r, v))
    case Silenced => slot.(silenced := AsFlag(r, v))
  }

  /** The field this leaf sets at this place, if the leaf is acceptable at all. */
  function Sets(r: Reader, place: Place, key: string, v: Value): Option<Field> {
    match ParseKey(key)
    case Some((p, field)) => if p == place && ValidValue(r, field, v) then Some(field) else None
    case None => None
  }

  function AfterLeaf(r: Reader, slot: Option<Slot>, place: Place, key: string, v: Value): Option<Slot> {
    match Sets(r, place, key, v)
    case Some(field) => Some(WithField(r, if slot.Some? then slot.value else BLANK, field, v))
    case None => slot
  }

  // ----- a whole snapshot, its leaves in order

  type Snapshot = seq<(string, Value)>

  /** The slot as the leaves alone build it. */
  function Rebuilt(r: Reader, place: Place, leaves: Snapshot): Option<Slot>
    decreases |leaves|
  {
    if leaves == [] then None
    else
      var (key, v) := leaves[|leaves| - 1];
      AfterLeaf(r, Rebuilt(r, place, leaves[..|leaves| - 1]), place, key, v)
  }

  /** What the table remembers of the slot it had before: its last valid time and its dismissal. */
  function Remembering(slot: Slot, before: Option<Slot>): Slot {
    var was := if before.Some? then before.value else BLANK;
    var dated := if slot.dateTime.None? then slot.(lastValid := was.lastValid) else slot;
    if !was.dismissed then dated
    else dated.(dismissed := !(was.lastValid != dated.dateTime && dated.dateTime.Some?))
  }

  function AfterSnapshot(r: Reader, before: Option<Slot>, place: Place, leaves: Snapshot): Option<Slot> {
    match Rebuilt(r, place, leaves)
    case Some(slot) => Some(Remembering(slot, before))
    case None => None
  }

  function AfterClear(slot: Option<Slot>): Option<Slot> {
    if slot.Some? && slot.value.dismissed then Some(BLANK.(dismissed := true, lastValid := slot.value.lastValid)) else None
  }

  function At(slots: map<Place, Slot>, place: Place): Option<Slot> {
    if place in slots then Some(slots[place]) else None
  }

  class SlotTable {
    const reader: Reader
    var slots: map<Place, Slot>

    constructor (reader: Reader)
      ensures this.reader == reader && slots == map[]
    {
      this.reader := reader;
      slots := map[];
    }

    method ApplyField(key: string, v: Value) returns (changed: bool)
      modifies this
      ensures forall place :: At(slots, place) == AfterLeaf(reader, At(old(slots), place), place, key, v)
      ensures changed <==> exists place :: place in slots && slots[place] != if place in old(slots) then old(slots)[place] else BLANK
    {
      var parsed := ParseKey(key);
      if parsed.None? || !ValidValue(reader, parsed.value.1, v) {
        return false;
      }
      var (place, field) := parsed.value;
      var entry := if place in slots then slots[place] else BLANK;
      var next := WithField(reader, entry, field, v);
      slots := slots[place := next];
      changed := next != entry;
    }

    method Sync(leaves: Snapshot)
      modifies this
      ensures forall place :: At(slots, place) == AfterSnapshot(reader, At(old(slots), place), place, leaves)
    {
      var before := slots;
      slots := map[];
      for i := 0 to |leaves|
        invariant forall place :: At(slots, place) == Rebuilt(reader, place, leaves[..i])
      {
        var _ := ApplyField(leaves[i].0, leaves[i].1);
        assert leaves[..i + 1][..i] == leaves[..i];
      }
      assert leaves[..|leaves|] == leaves;
      var rebuilt := slots;
      var left := slots.Keys;
      while left != {}
        invariant left <= slots.Keys == rebuilt.Keys
        invariant forall p :: p in left ==> slots[p] == rebuilt[p]
        invariant forall p :: p in rebuilt && p !in left ==>
          slots[p] == Remembering(rebuilt[p], At(before, p))
      {
        var p :| p in left;
        slots := slots[p := Remembering(slots[p], At(before, p))];
        left := left - {p};
      }
    }

    method Clear()
      modifies this
      ensures forall place :: At(slots, place) == AfterClear(At(old(slots), place))
    {
      slots := map p | p in slots && slots[p].dismissed :: BLANK.(dismissed := true, lastValid := slots[p].lastValid);
    }

    method Dismiss(place: Place) returns (changed: bool)
      modifies this
      ensures changed == (place in old(slots))
      ensures slots == if changed then old(slots)[place := old(slots)[place].(dismissed := true)] else old(slots)
    {
      changed := place in slots;
      if changed {
        slots := slots[place := slots[place].(dismissed := true)];
      }
    }
  }

  // ----- what a snapshot does to one slot

  predicate Mentions(r: Reader, place: Place, leaves: Snapshot) {
    exists i :: 0 <= i < |leaves| && Sets(r, place, leaves[i].0, leaves[i].1).Some?
  }

  /** The time the last DateTime leaf for this place carries, if it is a valid one. */
  function TimeIn(r: Reader, place: Place, leaves: Snapshot): Option<int>
    decreases |leaves|
  {
    if leaves == [] then None
    else
      var (key, v) := leaves[|leaves| - 1];
      if Sets(r, place, key, v) == Some(DateTime) then EventTime(r, v)
      else TimeIn(r, place, leaves[..|leaves| - 1])
  }

  function LastValid(slot: Option<Slot>): Option<int> { if slot.Some? then slot.value.lastValid else None }

  predicate Dismissed(slot: Option<Slot>) { slot.Some? && slot.value.dismissed }

  function Or<T>(a: Option<T>, b: Option<T>): Option<T> { if a.Some? then a else b }

  /** No valid time, or the one already known. */
  predicate NothingNew(time: Option<int>, known: Option<int>) { time.None? || time == known }

  lemma LeafOnUndismissed(r: Reader, slot: Option<Slot>, place: Place, key: string, v: Value)
    requires !Dismissed(slot)
    ensures var next := AfterLeaf(r, slot, place, key, v);
      && (next.Some? <==> slot.Some? || Sets(r, place, key, v).Some?)
      && !Dismissed(next)
      && (Sets(r, place, key, v) == Some(DateTime) ==>
            next.value.dateTime == EventTime(r, v) && (EventTime(r, v).Some? ==> next.value.lastValid == EventTime(r, v)))
      && (Sets(r, place, key, v) != Some(DateTime) && next.Some? ==>
            var was := if slot.Some? then slot.value else BLANK;
            next.value.dateTime == was.dateTime && next.value.lastValid == was.lastValid)
  {
  }

  lemma {:induction false} RebuiltSlot(r: Reader, place: Place, leaves: Snapshot)
    ensures Rebuilt(r, place, leaves).Some? <==> Mentions(r, place, leaves)
    ensures Rebuilt(r, place, leaves).Some? ==>
      && Rebuilt(r, place, leaves).value.dateTime == TimeIn(r, place, leaves)
      && (TimeIn(r, place, leaves).Some? ==> Rebuilt(r, place, leaves).value.lastValid == TimeIn(r, place, leaves))
      && !Rebuilt(r, place, leaves).value.dismissed
    ensures Rebuilt(r, place, leaves).None? ==> TimeIn(r, place, leaves).None?
    decreases |leaves|
  {
    if leaves != [] {
      var n := |leaves| - 1;
      RebuiltSlot(r, place, leaves[..n]);
      LeafOnUndismissed(r, Rebuilt(r, place, leaves[..n]), place, leaves[n].0, leaves[n].1);
      assert forall i :: 0 <= i < n ==> leaves[..n][i] == leaves[i];
      assert Mentions(r, place, leaves) <==> Mentions(r, place, leaves[..n]) || Sets(r, place, leaves[n].0, leaves[n].1).Some?;
    }
  }

  /** A snapshot keeps the slots it mentions; a time it lacks is remembered, and only another valid time undoes a dismissal. */
  lemma {:induction false} SnapshotEffect(r: Reader, before: Option<Slot>, place: Place, leaves: Snapshot)
    ensures var slot := AfterSnapshot(r, before, place, leaves);
      && (slot.Some? <==> Mentions(r, place, leaves))
      && (slot.Some? ==>
            && slot.value.dateTime == TimeIn(r, place, leaves)
            && slot.value.lastValid == Or(TimeIn(r, place, leaves), LastValid(before))
            && (slot.value.dismissed <==> Dismissed(before) && NothingNew(TimeIn(r, place, leaves), LastValid(before))))
  {
    RebuiltSlot(r, place, leaves);
  }

  // ----- runs of snapshots

  function AfterSnapshots(r: Reader, slot: Option<Slot>, place: Place, run: seq<Snapshot>): Option<Slot>
    decreases |run|
  {
    if run == [] then slot
    else AfterSnapshot(r, AfterSnapshots(r, slot, place, run[..|run| - 1]), place, run[|run| - 1])
  }

  /** The latest valid time of the run. */
  function LatestIn(r: Reader, place: Place, run: seq<Snapshot>): Option<int>
    decreases |run|
  {
    if run == [] then None
    else Or(TimeIn(r, place, run[|run| - 1]), LatestIn(r, place, run[..|run| - 1]))
  }

  predicate AllMention(r: Reader, place: Place, run: seq<Snapshot>) {
    forall i :: 0 <= i < |run| ==> Mentions(r, place, run[i])
  }

  /** Every valid time of the run is the known one. */
  predicate AllKnown(r: Reader, place: Place, run: seq<Snapshot>, known: Option<int>) {
    forall i :: 0 <= i < |run| ==> NothingNew(TimeIn(r, place, run[i]), known)
  }

  lemma {:induction false} LastOfRun(r: Reader, place: Place, run: seq<Snapshot>, known: Option<int>)
    requires run != []
    ensures var n := |run| - 1;
      && (AllMention(r, place, run) <==> AllMention(r, place, run[..n]) && Mentions(r, place, run[n]))
      && (AllKnown(r, place, run, known) <==> AllKnown(r, place, run[..n], known) && NothingNew(TimeIn(r, place, run[n]), known))
  {
    var n := |run| - 1;
    assert run == run[..n] + [run[n]];
  }

  /**
   Over snapshots that all mention the slot, a dismissal lasts exactly until a valid time other than the
   last valid one appears, and missing or invalid times never make the slot forget that last valid one.
   */
  lemma {:induction false} DismissalLasts(r: Reader, slot: Slot, place: Place, run: seq<Snapshot>)
    requires AllMention(r, place, run)
    ensures var end := AfterSnapshots(r, Some(slot), place, run);
      && end.Some?
      && end.value.lastValid == Or(LatestIn(r, place, run), slot.lastValid)
      && (end.value.dismissed <==> slot.dismissed && AllKnown(r, place, run, slot.lastValid))
    decreases |run|
  {
    if run != [] {
      var n := |run| - 1;
      LastOfRun(r, place, run, slot.lastValid);
      DismissalLasts(r, slot, place, run[..n]);
      SnapshotEffect(r, AfterSnapshots(r, Some(slot), place, run[..n]), place, run[n]);
      if AllKnown(r, place, run[..n], slot.lastValid) {
        LatestUnchanged(r, slot, place, run[..n]);
      }
    }
  }

  lemma {:induction false} LatestUnchanged(r: Reader, slot: Slot, place: Place, run: seq<Snapshot>)
    requires AllKnown(r, place, run, slot.lastValid)
    ensures Or(LatestIn(r, place, run), slot.lastValid) == slot.lastValid
    decreases |run|
  {
    if run != [] {
      LastOfRun(r, place, run, slot.lastValid);
      LatestUnchanged(r, slot, place, run[..|run| - 1]);
    }
  }

  // ----- runs that mix leaves, snapshots and lost connections

  datatype Event = Leaf(key: string, v: Value) | Whole(leaves: Snapshot) | Lost

  function AfterEvent(r: Reader, slot: Option<Slot>, place: Place, e: Event): Option<Slot> {
    match e
    case Leaf(key, v) => AfterLeaf(r, slot, place, key, v)
    case Whole(leaves) => AfterSnapshot(r, slot, place, leaves)
    case Lost => AfterClear(slot)
  }

  function AfterEvents(r: Reader, slot: Option<Slot>, place: Place, run: seq<Event>): Option<Slot>
    decreases |run|
  {
    if run == [] then slot else AfterEvents(r, AfterEvent(r, slot, place, run[0]), place, run[1..])
  }

  /** Another valid time on either path; a fall of Active on the incremental path only; a snapshot without the slot. */
  predicate Frees(r: Reader, slot: Slot, place: Place, e: Event) {
    match e
    case Leaf(key, v) =>
      (match Sets(r, place, key, v)
       case Some(DateTime) => !NothingNew(EventTime(r, v), slot.lastValid)
       case Some(Active) => AsFlag(r, v) == Some(false) && slot.active == Some(true)
       case _ => false)
    case Whole(leaves) => !Mentions(r, place, leaves) || !NothingNew(TimeIn(r, place, leaves), slot.lastValid)
    case Lost => false
  }

  /** Whether some event of the run frees the slot as it then stands. */
  predicate Freed(r: Reader, slot: Option<Slot>, place: Place, run: seq<Event>)
    decreases |run|
  {
    run != [] && (slot.None? || Frees(r, slot.value, place, run[0]) || Freed(r, AfterEvent(r, slot, place, run[0]), place, run[1..]))
  }

  lemma EventEffect(r: Reader, slot: Option<Slot>, place: Place, e: Event)
    ensures Dismissed(AfterEvent(r, slot, place, e)) <==> Dismissed(slot) && !Frees(r, slot.value, place, e)
    ensures Dismissed(AfterEvent(r, slot, place, e)) ==> LastValid(AfterEvent(r, slot, place, e)) == LastValid(slot)
  {
    if e.Whole? {
      SnapshotEffect(r, slot, place, e.leaves);
    }
  }

  lemma {:induction false} NeverDismissedAgain(r: Reader, slot: Option<Slot>, place: Place, run: seq<Event>)
    requires !Dismissed(slot)
    ensures !Dismissed(AfterEvents(r, slot, place, run))
    decreases |run|
  {
    if run != [] {
      EventEffect(r, slot, place, run[0]);
      NeverDismissedAgain(r, AfterEvent(r, slot, place, run[0]), place, run[1..]);
    }
  }

  /** A dismissed banner is still dismissed after any run exactly when no event of it freed the slot. */
  lemma {:induction false} DismissedUntilFreed(r: Reader, slot: Option<Slot>, place: Place, run: seq<Event>)
    requires Dismissed(slot)
    ensures Dismissed(AfterEvents(r, slot, place, run)) <==> !Freed(r, slot, place, run)
    ensures !Freed(r, slot, place, run) ==> LastValid(AfterEvents(r, slot, place, run)) == LastValid(slot)
    decreases |run|
  {
    if run != [] {
      var next := AfterEvent(r, slot, place, run[0]);
      EventEffect(r, slot, place, run[0]);
      if Dismissed(next) {
        DismissedUntilFreed(r, next, place, run[1..]);
      } else {
        NeverDismissedAgain(r, next, place, run[1..]);
      }
    }
  }
}
