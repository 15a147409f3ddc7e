/**
 What one leaf says of a slot: which keys name a field of a place, which values the field takes, and what the slot
 holds afterwards.
 */
module SlotLeaves {
  import opened Basics
  import Decimal
  import opened PlatformSlots

  // ----- keys

  function NameOf(field: Field): string {
    match field
    case Description => "Description"
    case DeviceName => "DeviceName"
    case Service => "Service"
    case DateTime => "DateTime"
    case Type => "Type"
    case Active => "Active"
    case Acknowledged => "Acknowledged"
    case Silenced => "Silenced"
  }

  predicate IsDigits(s: string) { s != "" && forall i :: 0 <= i < |s| ==> '0' <= s[i] <= '9' }

  ghost predicate IsKeyOf(key: string, place: Place, field: Field, number: string) {
    && IsDigits(place.0) && IsDigits(number) && |number| <= 4300 && Decimal.AllDigits(number) && Decimal.Value(number) == place.1 <= 20
    && key == place.0 + "/Notifications/" + number + "/" + NameOf(field)
  }

  lemma FieldExactly(name: string, field: Field)
    ensures FieldOf(name) == Some(field) <==> name == NameOf(field)
  {
    NamesDiffer();
  }

  lemma NamesDiffer()
    ensures forall f: Field, g: Field :: NameOf(f) == NameOf(g) ==> f == g
  {
    forall f: Field, g: Field | NameOf(f) == NameOf(g) ensures f == g {
      assert |NameOf(f)| == |NameOf(g)| && NameOf(f)[0] == NameOf(g)[0];
    }
  }

  lemma {:induction false} NoSlash(s: string)
    requires '/' !in s
    ensures Parts(s) == [s]
  {
    if s != "" {
      NoSlash(s[1..]);
      assert s == [s[0]] + s[1..];
    }
  }

  /** The parts of a text that begins with one. */
  lemma {:induction false} PartsFirst(first: string, rest: string)
    requires '/' !in first
    ensures Parts(first + "/" + rest) == [first] + Parts(rest)
  {
    var key := first + "/" + rest;
    if first == "" {
      assert key[1..] == rest;
    } else {
      assert key[1..] == first[1..] + "/" + rest && key[0] == first[0];
      PartsFirst(first[1..], rest);
      assert first == [first[0]] + first[1..];
    }
  }

  function Joined(parts: seq<string>): string
    requires parts != []
  {
    if |parts| == 1 then parts[0] else parts[0] + "/" + Joined(parts[1..])
  }

  lemma {:induction false} PartsJoin(key: string)
    ensures Joined(Parts(key)) == key && forall i :: 0 <= i < |Parts(key)| ==> '/' !in Parts(key)[i]
  {
    if key != "" {
      var rest := Parts(key[1..]);
      PartsJoin(key[1..]);
      assert key == [key[0]] + key[1..];
      if key[0] == '/' {
        assert ([""] + rest)[1..] == rest;
      } else {
        JoinedFirst(key[0], rest);
      }
    }
  }

  lemma {:induction false} JoinedFirst(c: char, rest: seq<string>)
    requires rest != []
    ensures Joined([[c] + rest[0]] + rest[1..]) == [c] + Joined(rest)
  {
    var parts := [[c] + rest[0]] + rest[1..];
    assert parts[1..] == rest[1..];
    if |rest| > 1 {
      Regroup([c], rest[0], "/");
      Regroup([c], rest[0] + "/", Joined(rest[1..]));
    }
  }

  lemma DigitsHaveNoSlash(s: string)
    ensures IsDigits(s) <==> Digits(s)
    ensures IsDigits(s) ==> '/' !in s
  {
  }

  lemma NamesHaveNoSlash(field: Field)
    ensures '/' !in NameOf(field)
  {
  }

  lemma FourJoined(a: string, b: string, c: string, d: string)
    ensures Joined([a, b, c, d]) == a + "/" + (b + "/" + (c + "/" + d))
  {
    assert [c, d][1..] == [d] && Joined([c, d]) == c + "/" + d;
    assert [b, c, d][1..] == [c, d] && Joined([b, c, d]) == b + "/" + (c + "/" + d);
    assert [a, b, c, d][1..] == [b, c, d];
  }

  lemma Nested(a: string, c: string, d: string)
    ensures a + "/Notifications/" + c + "/" + d == a + "/" + ("Notifications" + "/" + (c + "/" + d))
  {
    assert "/Notifications/" == "/" + "Notifications" + "/";
    Regroup(a, "/", "Notifications" + "/");
    assert a + "/Notifications/" == a + "/" + ("Notifications" + "/");
    Regroup(a + "/", "Notifications" + "/", c);
    Regroup(a + "/" + ("Notifications" + "/"), c, "/" + d);
    assert c + "/" + d == c + ("/" + d);
    assert a + "/Notifications/" + c + "/" + d == a + "/Notifications/" + c + ("/" + d);
    Regroup(a + "/", "Notifications" + "/", c + "/" + d);
  }

  /** The key of a place and field has the device, the number of the slot, in any number of digits, and the field's name. */
  lemma KeyExactly(key: string, place: Place, field: Field)
    ensures ParseKey(key) == Some((place, field)) <==> exists number :: IsKeyOf(key, place, field, number)
  {
    hide Parts, Joined, FieldOf, NameOf, Digits, IsDigits, Decimal.Value, Decimal.AllDigits;
    if ParseKey(key) == Some((place, field)) {
      var parts := Parts(key);
      PartsJoin(key);
      FieldExactly(parts[3], field);
      DigitsHaveNoSlash(parts[0]);
      DigitsHaveNoSlash(parts[2]);
      assert parts == [parts[0], "Notifications", parts[2], parts[3]];
      FourJoined(parts[0], "Notifications", parts[2], parts[3]);
      Nested(parts[0], parts[2], parts[3]);
      DigitsAll(parts[2]);
      assert IsKeyOf(key, place, field, parts[2]);
    }
    if number :| IsKeyOf(key, place, field, number) {
      KeyReads(key, place, field, number);
    }
  }

  lemma DigitsAll(s: string)
    ensures Digits(s) ==> Decimal.AllDigits(s)
  {
  }

  lemma KeyReads(key: string, place: Place, field: Field, number: string)
    requires IsKeyOf(key, place, field, number)
    ensures ParseKey(key) == Some((place, field))
  {
    hide Parts, FieldOf, NameOf, Digits, IsDigits, Decimal.Value, Decimal.AllDigits;
    var name := NameOf(field);
    DigitsHaveNoSlash(place.0);
    DigitsHaveNoSlash(number);
    NamesHaveNoSlash(field);
    Nested(place.0, number, name);
    PartsFirst(place.0, "Notifications" + "/" + (number + "/" + name));
    PartsFirst("Notifications", number + "/" + name);
    PartsFirst(number, name);
    NoSlash(name);
    assert Parts(key) == [place.0, "Notifications", number, name];
    FieldExactly(name, field);
  }

  // ----- values

  /** Text reads as a number exactly when the reader takes it as a decimal of that value. */
  predicate ReadsAs(r: Reader, v: Value, n: real) { v == Num(n) || (v.Text? && r.decimal(v.t) == Some(n)) }

  lemma AlarmExactly(r: Reader, v: Value, k: int)
    ensures AlarmValue(r, v) == Some(k) <==> (v.Null? && k == 0) || ((k == 0 || k == 1 || k == 2) && ReadsAs(r, v, k as real))
  {
  }

  lemma FlagExactly(r: Reader, v: Value, b: bool)
    ensures AsFlag(r, v) == Some(b) <==>
      || v == Bool(b) || v == Num(if b then 1.0 else 0.0)
      || (v.Text? && (r.lowered(r.stripped(v.t)) == (if b then "1" else "0") || r.lowered(r.stripped(v.t)) == if b then "true" else "false"))
  {
  }

  /** A time is a whole second from 1970 to the end of the year 9999, and not the first. */
  lemma TimeExactly(r: Reader, v: Value, k: int)
    ensures EventTime(r, v) == Some(k) <==> 1 <= k <= 253_402_300_799 && ReadsAs(r, v, k as real)
  {
  }

  lemma TextExactly(r: Reader, v: Value, t: string)
    ensures AsText(r, v) == Some(t) <==>
      || (v.Text? && t == r.stripped(v.t) && t != "")
      || ((v.Num? || v.Bool?) && t == r.shown(v))
  {
  }

  ghost predicate HasAlarm(r: Reader, v: Value) { v.Null? || ReadsAs(r, v, 0.0) || ReadsAs(r, v, 1.0) || ReadsAs(r, v, 2.0) }

  ghost predicate IsFlag(r: Reader, v: Value) {
    || v.Bool? || v == Num(0.0) || v == Num(1.0)
    || (v.Text? && var word := r.lowered(r.stripped(v.t)); word == "0" || word == "1" || word == "true" || word == "false")
  }

  /** Null clears any field; texts take text, a time anything that is no object, a type an alarm state and a flag a flag. */
  ghost predicate Takes(r: Reader, field: Field, v: Value) {
    match field
    case Description | DeviceName | Service => v.Null? || v.Text?
    case DateTime => !v.Other?
    case Type => HasAlarm(r, v)
    case Active | Acknowledged | Silenced => v.Null? || IsFlag(r, v)
  }

  lemma TakesExactly(r: Reader, field: Field, v: Value)
    ensures ValidValue(r, field, v) <==> Takes(r, field, v)
  {
    hide AlarmValue, AsFlag, ReadsAs;
    AlarmExactly(r, v, 0);
    AlarmExactly(r, v, 1);
    AlarmExactly(r, v, 2);
    AlarmIsState(r, v);
    FlagExactly(r, v, true);
    FlagExactly(r, v, false);
    if AsFlag(r, v).Some? {
      FlagExactly(r, v, AsFlag(r, v).value);
    }
    assert AlarmValue(r, v).Some? <==> AlarmValue(r, v) == Some(0) || AlarmValue(r, v) == Some(1) || AlarmValue(r, v) == Some(2);
  }

  lemma AlarmIsState(r: Reader, v: Value)
    ensures AlarmValue(r, v).Some? ==> 0 <= AlarmValue(r, v).value <= 2
  {
  }

  // ----- one leaf

  /** The slots agree on everything but this field and what depends on it. */
  ghost predicate OthersKept(field: Field, s: Slot, t: Slot) {
    && (!field.Description? ==> t.description == s.description) && (!field.DeviceName? ==> t.deviceName == s.deviceName)
    && (!field.Service? ==> t.service == s.service) && (!field.Type? ==> t.notifType == s.notifType && t.pushTypeKnown == s.pushTypeKnown)
    && (!field.DateTime? ==> t.dateTime == s.dateTime && t.lastValid == s.lastValid)
    && (!field.Active? ==> t.active == s.active) && (!field.Acknowledged? ==> t.acknowledged == s.acknowledged)
    && (!field.Silenced? ==> t.silenced == s.silenced)
    && (!field.DateTime? && !field.Active? ==> t.dismissed == s.dismissed)
  }

  /** What the field holds afterwards; a new time, or activity that ends, takes a dismissal back. */
  ghost predicate IsSet(r: Reader, field: Field, s: Slot, v: Value, t: Slot) {
    match field
    case Description => t.description == AsText(r, v)
    case DeviceName => t.deviceName == AsText(r, v)
    case Service => t.service == AsText(r, v)
    case DateTime =>
      var time := EventTime(r, v);
      && t.dateTime == time && t.lastValid == (if time.Some? then time else s.lastValid)
      && t.dismissed == (s.dismissed && (time.Some? ==> s.lastValid == time))
    case Type =>
      && (t.pushTypeKnown <==> v == Num(0.0) || v == Num(1.0) || v == Num(2.0))
      && (if v.Null? then t.notifType.None? else t.notifType == AlarmValue(r, v))
    case Active => t.active == AsFlag(r, v) && t.dismissed == (s.dismissed && !(s.active == Some(true) && AsFlag(r, v) == Some(false)))
    case Acknowledged => t.acknowledged == AsFlag(r, v)
    case Silenced => t.silenced == AsFlag(r, v)
  }

  /** The leaf sets this field of the place. */
  ghost predicate SetsField(r: Reader, place: Place, key: string, v: Value, field: Field) {
    Takes(r, field, v) && exists number :: IsKeyOf(key, place, field, number)
  }

  lemma SetsExactly(r: Reader, place: Place, key: string, v: Value, field: Field)
    ensures Sets(r, place, key, v) == Some(field) <==> SetsField(r, place, key, v, field)
  {
    hide ParseKey, ValidValue, Takes, IsKeyOf;
    KeyExactly(key, place, field);
    TakesExactly(r, field, v);
  }

  /** A leaf sets at most one field of a place, in a blank slot if there was none, and otherwise changes nothing. */
  lemma LeafOutcome(r: Reader, slot: Option<Slot>, place: Place, key: string, v: Value)
    ensures var t := AfterLeaf(r, slot, place, key, v);
      && ((forall field :: !SetsField(r, place, key, v, field)) ==> t == slot)
      && (forall field :: SetsField(r, place, key, v, field) ==>
            && t.Some? && OthersKept(field, if slot.Some? then slot.value else BLANK, t.value)
            && IsSet(r, field, if slot.Some? then slot.value else BLANK, v, t.value))
  {
    hide Sets, SetsField, WithField, OthersKept, IsSet;
    forall field ensures SetsField(r, place, key, v, field) <==> Sets(r, place, key, v) == Some(field) {
      SetsExactly(r, place, key, v, field);
    }
    if Sets(r, place, key, v).Some? {
      WithFieldExactly(r, if slot.Some? then slot.value else BLANK, Sets(r, place, key, v).value, v);
    }
  }

  lemma WithFieldExactly(r: Reader, s: Slot, field: Field, v: Value)
    ensures OthersKept(field, s, WithField(r, s, field, v)) && IsSet(r, field, s, v, WithField(r, s, field, v))
  {
    hide AsText, AsFlag, AlarmValue, EventTime;
  }

  /** After a lost connection a place has a slot exactly when it was dismissed: a blank one that remembers when. */
  lemma ClearExactly(slot: Option<Slot>)
    ensures var t := AfterClear(slot);
      && (t.Some? <==> slot.Some? && slot.value.dismissed)
      && (t.Some? ==> t == Some(Slot(None, None, None, None, slot.value.lastValid, None, false, None, None, None, true)))
  {
  }
}
