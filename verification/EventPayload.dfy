/**
 The payload of one event as compact JSON text, and the loop that shortens its body until it fits.
 Text is a sequence of Unicode scalar values, so every title and body here is encodable.
 */
module EventPayload {
  import opened Decimal
  import opened JsonStrings
  import Outbox = PushTables

  const MAX_BYTES: nat := Outbox.MAX_PAYLOAD_BYTES

  datatype EventPayload = EventPayload(
    eventKey: string, kind: string, source: string, sourceTimestampMs: int, observedAtMs: int,
    title: string, body: string)

  function Utf8Size(s: string): nat {
    if s == "" then 0 else Utf8Size(s[..|s| - 1]) + Utf8SizeOf(s[|s| - 1])
  }

  function Utf8SizeOf(c: char): nat {
    if c as int < 0x80 then 1 else if c as int < 0x800 then 2 else if c as int < 0x10000 then 3 else 4
  }

  function Integer(n: int): string {
    if n < 0 then "-" + Render(-n) else Render(n)
  }

  datatype Field = Field(name: string, value: string)

  /** The fields in the order the payload lists them, each name with its punctuation. */
  function Fields(p: EventPayload): seq<Field> {
    [ Field("{\"schemaVersion\":1,\"eventKey\":\"", Escape(p.eventKey)),
      Field("\",\"kind\":\"", Escape(p.kind)),
      Field("\",\"source\":\"", Escape(p.source)),
      Field("\",\"sourceTimestampMs\":", Integer(p.sourceTimestampMs)),
      Field(",\"observedAtMs\":", Integer(p.observedAtMs)),
      Field(",\"title\":\"", Escape(p.title)),
      Field("\",\"body\":\"", Escape(p.body)),
      Field("\",\"url\":\"/\"}", "") ]
  }

  function Text(fields: seq<Field>): string {
    if fields == [] then "" else fields[0].name + fields[0].value + Text(fields[1..])
  }

  function Json(p: EventPayload): string { Text(Fields(p)) }

  function EncodedBytes(p: EventPayload): nat { Utf8Size(Json(p)) }

  function Take(s: string, n: nat): string { if |s| <= n then s else s[..n] }

  // ----- sizes add up

  lemma {:induction false} Utf8Concat(a: string, b: string)
    ensures Utf8Size(a + b) == Utf8Size(a) + Utf8Size(b)
  {
    if b == "" {
      assert a + b == a;
    } else {
      assert (a + b)[..|a + b| - 1] == a + b[..|b| - 1];
      Utf8Concat(a, b[..|b| - 1]);
    }
  }

  lemma {:induction false} EscapedBound(s: string)
    ensures Utf8Size(Escape(s)) <= 6 * |s|
  {
    if s != "" {
      EscapedBound(s[..|s| - 1]);
      Utf8Concat(Escape(s[..|s| - 1]), EscapeChar(s[|s| - 1]));
      EscapeCharBound(s[|s| - 1]);
    }
  }

  lemma {:induction false} PlainSize(s: string)
    ensures Utf8Size(s) <= 4 * |s|
    ensures (forall i :: 0 <= i < |s| ==> s[i] as int < 0x80) ==> Utf8Size(s) == |s|
  {
    if s != "" {
      PlainSize(s[..|s| - 1]);
    }
  }

  lemma EscapeCharBound(c: char)
    ensures 1 <= Utf8Size(EscapeChar(c)) <= 6
  {
    PlainSize(EscapeChar(c));
    if EscapeChar(c) == [c] {
      assert [c][..0] == "";
      assert Utf8Size([c]) == Utf8SizeOf(c);
    }
  }

  lemma DigitsSize(n: int)
    ensures Utf8Size(Integer(n)) == |Integer(n)|
  {
    ValueOfRender(if n < 0 then -n else n);
    PlainSize(Integer(n));
  }

  function Size(fields: seq<Field>): nat {
    if fields == [] then 0
    else Utf8Size(fields[0].name) + Utf8Size(fields[0].value) + Size(fields[1..])
  }

  lemma {:induction false} TextSize(fields: seq<Field>)
    ensures Utf8Size(Text(fields)) == Size(fields)
  {
    if fields != [] {
      TextSize(fields[1..]);
      Utf8Concat(fields[0].name + fields[0].value, Text(fields[1..]));
      Utf8Concat(fields[0].name, fields[0].value);
    }
  }

  lemma {:induction false} SizeAfterUpdate(fields: seq<Field>, i: nat, f: Field)
    requires i < |fields| && fields[i].name == f.name
    ensures Size(fields[i := f]) + Utf8Size(fields[i].value) == Size(fields) + Utf8Size(f.value)
  {
    if i == 0 {
      assert fields[i := f][1..] == fields[1..];
    } else {
      assert fields[i := f][1..] == fields[1..][i - 1 := f];
      SizeAfterUpdate(fields[1..], i - 1, f);
    }
  }

  /** The body adds its own escaped size to what all else takes. */
  lemma BodyAdds(p: EventPayload)
    ensures EncodedBytes(p) == EncodedBytes(p.(body := "")) + Utf8Size(Escape(p.body))
  {
    var fields := Fields(p);
    var f := fields[6].(value := "");
    assert Fields(p.(body := "")) == fields[6 := f];
    TextSize(fields);
    TextSize(fields[6 := f]);
    SizeAfterUpdate(fields, 6, f);
  }

  lemma {:induction false} PrefixSmaller(s: string, n: nat)
    requires n <= |s|
    ensures Utf8Size(Escape(s[..n])) <= Utf8Size(Escape(s))
    decreases |s|
  {
    if n < |s| {
      assert s[..|s| - 1][..n] == s[..n];
      PrefixSmaller(s[..|s| - 1], n);
      Utf8Concat(Escape(s[..|s| - 1]), EscapeChar(s[|s| - 1]));
    } else {
      assert s[..n] == s;
    }
  }

  /** A finite double has at most 309 integer digits; kinds and sources are short words. */
  ghost predicate Encodable(p: EventPayload) {
    && |p.eventKey| == 64
    && |p.kind| <= 10
    && |p.source| <= 7
    && |Integer(p.sourceTimestampMs)| <= 310
    && |Integer(p.observedAtMs)| <= 310
    && |p.title| <= 120
  }

  function Bounds(fields: seq<Field>): nat {
    if fields == [] then 0 else 4 * |fields[0].name| + Utf8Size(fields[0].value) + Bounds(fields[1..])
  }

  lemma {:induction false} SizeBounded(fields: seq<Field>)
    ensures Size(fields) <= Bounds(fields)
  {
    if fields != [] {
      PlainSize(fields[0].name);
      SizeBounded(fields[1..]);
    }
  }

  /** With an empty body the fixed fields, two numbers and 120 escaped title characters always fit. */
  lemma EmptyBodyFits(p: EventPayload)
    requires Encodable(p)
    ensures EncodedBytes(p.(body := "")) <= MAX_BYTES
  {
    var fields := Fields(p.(body := ""));
    EscapedBound(p.eventKey);
    EscapedBound(p.kind);
    EscapedBound(p.source);
    EscapedBound(p.title);
    DigitsSize(p.sourceTimestampMs);
    DigitsSize(p.observedAtMs);
    TextSize(fields);
    SizeBounded(fields);
    BoundsOf(fields);
  }

  lemma TooLongHasBody(p: EventPayload)
    requires Encodable(p) && EncodedBytes(p) > MAX_BYTES
    ensures p.body != ""
  {
    EmptyBodyFits(p);
  }

  lemma {:induction false} BoundsOf(f: seq<Field>)
    requires |f| == 8
    ensures Bounds(f) ==
      4 * (|f[0].name| + |f[1].name| + |f[2].name| + |f[3].name| + |f[4].name| + |f[5].name| + |f[6].name| + |f[7].name|)
      + Utf8Size(f[0].value) + Utf8Size(f[1].value) + Utf8Size(f[2].value) + Utf8Size(f[3].value)
      + Utf8Size(f[4].value) + Utf8Size(f[5].value) + Utf8Size(f[6].value) + Utf8Size(f[7].value)
  {
    hide Bounds, Utf8Size;
    BoundsFrom(f, 0);
    BoundsFrom(f, 1);
    BoundsFrom(f, 2);
    BoundsFrom(f, 3);
    BoundsFrom(f, 4);
    BoundsFrom(f, 5);
    BoundsFrom(f, 6);
    BoundsFrom(f, 7);
    assert f[0..] == f && f[8..] == [];
  }

  lemma BoundsFrom(f: seq<Field>, i: nat)
    requires i < |f|
    ensures Bounds(f[i..]) == 4 * |f[i].name| + Utf8Size(f[i].value) + Bounds(f[i + 1..])
    ensures i + 1 == |f| ==> Bounds(f[i + 1..]) == 0
  {
    assert f[i..][1..] == f[i + 1..];
  }

  /** Fitting is monotone: when a prefix is too long, so is all that it starts. */
  lemma LongerNeverFits(p: EventPayload, n: nat)
    requires n <= |p.body| && EncodedBytes(p.(body := p.body[..n])) > MAX_BYTES
    ensures EncodedBytes(p) > MAX_BYTES
  {
    BodyAdds(p);
    BodyAdds(p.(body := p.body[..n]));
    PrefixSmaller(p.body, n);
  }

  /** Nothing but the end of the body was cut off, and no longer prefix fits. */
  ghost predicate Shortened(whole: EventPayload, p: EventPayload) {
    && p == whole.(body := p.body) && p.body <= whole.body
    && (|p.body| < |whole.body| ==> EncodedBytes(whole.(body := whole.body[..|p.body| + 1])) > MAX_BYTES)
  }

  lemma OneShorter(whole: EventPayload, p: EventPayload)
    requires Shortened(whole, p) && p.body != "" && EncodedBytes(p) > MAX_BYTES
    ensures Shortened(whole, p.(body := p.body[..|p.body| - 1]))
  {
    hide EncodedBytes;
    assert whole.body[..|p.body|] == p.body;
  }

  /** The loop: one character less each time while the text is too long. */
  method Shorten(whole: EventPayload) returns (p: EventPayload)
    requires Encodable(whole)
    ensures EncodedBytes(p) <= MAX_BYTES && Shortened(whole, p)
  {
    hide EncodedBytes;
    p := whole;
    while EncodedBytes(p) > MAX_BYTES
      invariant Shortened(whole, p)
      decreases |p.body|
    {
      TooLongHasBody(p);
      OneShorter(whole, p);
      p := p.(body := p.body[..|p.body| - 1]);
    }
  }

  /** The outbox measures the same encoding, and does not refuse the payload as too large. */
  ghost predicate TakenBy(t: Outbox.Tables, id: nat, p: EventPayload, preference: Outbox.Kind, targets: seq<Outbox.SubId>,
                          now: real, epoch: Outbox.Epoch)
  {
    var stored := Outbox.Payload(preference, p.sourceTimestampMs, EncodedBytes(p));
    !Outbox.Enqueue(t, id, stored, targets, now, epoch).0.Oversized?
  }

  /** `event_payload`: at most 120 title and 1000 body characters, then the longest body prefix that fits. */
  method Build(eventKey: string, kind: string, source: string, sourceMs: int, observedMs: int, title: string, body: string)
    returns (p: EventPayload)
    requires Encodable(EventPayload(eventKey, kind, source, sourceMs, observedMs, Take(title, 120), ""))
    ensures p == EventPayload(eventKey, kind, source, sourceMs, observedMs, Take(title, 120), p.body)
    ensures p.body <= Take(body, 1000)
    ensures EncodedBytes(p) <= MAX_BYTES
    ensures forall longer | p.body < longer <= Take(body, 1000) :: EncodedBytes(p.(body := longer)) > MAX_BYTES
    ensures forall t, id, preference, targets, now, epoch :: TakenBy(t, id, p, preference, targets, now, epoch)
  {
    hide EncodedBytes;
    var whole := EventPayload(eventKey, kind, source, sourceMs, observedMs, Take(title, 120), Take(body, 1000));
    p := Shorten(whole);
    forall longer | p.body < longer <= whole.body
      ensures EncodedBytes(p.(body := longer)) > MAX_BYTES
    {
      assert longer[..|p.body| + 1] == whole.body[..|p.body| + 1];
      LongerNeverFits(p.(body := longer), |p.body| + 1);
    }
  }
}
