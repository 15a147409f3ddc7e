/**
 The characters of JSON strings (RFC 8259, section 7): the text between the quotes as a sequence of pieces, the
 code points it stands for, and the text that a string is written as. A string read may hold lone surrogates,
 so it is a sequence of numbers.
 */
module JsonStrings {
  import opened Basics

  type Codes = seq<nat>

  function CodesOf(s: string): Codes { seq(|s|, i requires 0 <= i < |s| => s[i] as nat) }

  // ----- writing

  function Hex(n: nat): char
    requires n < 16
  {
    if n < 10 then n as char + '0' else (n - 10) as char + 'a'
  }

  /** One character of a JSON string, with non-ASCII characters written as they are. */
  function EscapeChar(c: char): string {
    if c == '"' then "\\\""
    else if c == '\\' then "\\\\"
    else if c == '\n' then "\\n"
    else if c == '\r' then "\\r"
    else if c == '\t' then "\\t"
    else if c as int == 8 then "\\b"
    else if c as int == 12 then "\\f"
    else if c as int < 32 then ['\\', 'u', '0', '0', Hex(c as int / 16), Hex(c as int % 16)]
    else [c]
  }

  function Escape(s: string): string {
    if s == "" then "" else Escape(s[..|s| - 1]) + EscapeChar(s[|s| - 1])
  }

  // ----- reading

  /** A character that stands for itself between the quotes. */
  predicate Plain(c: char) { c != '"' && c != '\\' && c as int >= 32 }

  predicate IsHex(c: char) { '0' <= c <= '9' || 'a' <= c <= 'f' || 'A' <= c <= 'F' }

  function HexValue(c: char): (n: nat)
    requires IsHex(c)
    ensures n < 16
  {
    if '0' <= c <= '9' then (c - '0') as nat
    else if 'a' <= c <= 'f' then 10 + (c - 'a') as nat
    else 10 + (c - 'A') as nat
  }

  predicate IsUnit(s: string) { |s| >= 6 && s[0] == '\\' && s[1] == 'u' && IsHex(s[2]) && IsHex(s[3]) && IsHex(s[4]) && IsHex(s[5]) }

  /** The number of four hexadecimal digits. */
  function UnitOf(s: string): nat
    requires IsUnit(s)
  {
    ((HexValue(s[2]) * 16 + HexValue(s[3])) * 16 + HexValue(s[4])) * 16 + HexValue(s[5])
  }

  const SHORT: map<char, nat> :=
    map['"' := 34, '\\' := 92, '/' := 47, 'b' := 8, 'f' := 12, 'n' := 10, 'r' := 13, 't' := 9]

  /** How many characters the first piece takes: a plain character, or an escape of two or six; zero when there is none. */
  function Piece(s: string): (n: nat)
    ensures n <= |s|
  {
    if s == "" then 0
    else if Plain(s[0]) then 1
    else if |s| >= 2 && s[0] == '\\' && s[1] in SHORT then 2
    else if IsUnit(s) then 6
    else 0
  }

  /** Text that may stand between quotes. */
  predicate RawText(s: string) {
    s == "" || (Piece(s) > 0 && RawText(s[Piece(s)..]))
  }

  /** The code points of raw text; an escaped high surrogate joins an escaped low one that follows. */
  function Decoded(s: string): Codes {
    if Piece(s) == 0 then []
    else if Piece(s) == 1 then [s[0] as nat] + Decoded(s[1..])
    else if Piece(s) == 2 then [SHORT[s[1]]] + Decoded(s[2..])
    else
      var high, rest := UnitOf(s), s[6..];
      if 0xD800 <= high <= 0xDBFF && IsUnit(rest) && 0xDC00 <= UnitOf(rest) <= 0xDFFF then
        [0x1_0000 + (high - 0xD800) * 0x400 + (UnitOf(rest) - 0xDC00)] + Decoded(rest[6..])
      else [high] + Decoded(rest)
  }

  /** Up to the closing quote: the text before it, and what follows it. */
  datatype Lexed = Unclosed | Closed(text: string, rest: string)

  function LexString(s: string): (l: Lexed)
    ensures l.Closed? ==> |l.rest| < |s|
  {
    if s == "" then Unclosed
    else if s[0] == '"' then Closed("", s[1..])
    else if Piece(s) == 0 then Unclosed
    else
      var l := LexString(s[Piece(s)..]);
      if l.Unclosed? then Unclosed else Closed(s[..Piece(s)] + l.text, l.rest)
  }

  // ----- reading finds what was written

  /** The first piece is decided by its own characters. */
  lemma PieceLocal(s: string, t: string)
    requires Piece(s) > 0 && Piece(s) <= |t| && t[..Piece(s)] == s[..Piece(s)]
    ensures Piece(t) == Piece(s)
  {
    var k := Piece(s);
    assert forall i :: 0 <= i < k ==> t[i] == t[..k][i] && s[i] == s[..k][i];
  }

  lemma {:induction false} LexStringSound(s: string)
    requires LexString(s).Closed?
    ensures s == LexString(s).text + ['"'] + LexString(s).rest && RawText(LexString(s).text)
  {
    if s[0] != '"' {
      var first, l := s[..Piece(s)], LexString(s[Piece(s)..]);
      LexStringSound(s[Piece(s)..]);
      assert s == first + s[Piece(s)..];
      Regroup(first, l.text + ['"'], l.rest);
      Regroup(first, l.text, ['"']);
      PieceLocal(s, first);
      RawFront(first, l.text);
    }
  }

  /** A piece before raw text makes raw text. */
  lemma {:induction false} RawFront(first: string, text: string)
    requires first != "" && Piece(first) == |first| && RawText(text)
    ensures Piece(first + text) == |first| && RawText(first + text)
  {
    PieceLocal(first, first + text);
    assert (first + text)[|first|..] == text;
  }

  lemma {:induction false} LexStringComplete(text: string, rest: string)
    requires RawText(text)
    ensures LexString(text + ['"'] + rest) == Closed(text, rest)
    decreases |text|
  {
    hide Piece;
    var s := text + ['"'] + rest;
    if text == "" {
      assert s[1..] == rest;
    } else {
      var k := Piece(text);
      assert s[..k] == text[..k] && s[k..] == text[k..] + ['"'] + rest;
      PieceLocal(text, s);
      NoQuoteFirst(text);
      LexStringComplete(text[k..], rest);
      assert text[..k] + text[k..] == text;
    }
  }

  lemma NoQuoteFirst(text: string)
    requires Piece(text) > 0
    ensures text[0] != '"'
  {
  }

  /** Escaped from the front: the same text. */
  lemma {:induction false} EscapeFront(c: char, s: string)
    ensures Escape([c] + s) == EscapeChar(c) + Escape(s)
    decreases |s|
  {
    hide EscapeChar;
    if s == "" {
      EscapeBack("", c);
      assert [c] + s == [c] && "" + [c] == [c];
      NothingAdded(EscapeChar(c));
    } else {
      var most, last := s[..|s| - 1], s[|s| - 1];
      EscapeFront(c, most);
      EscapeBack([c] + most, last);
      assert [c] + s == [c] + most + [last] && s == most + [last];
      Regroup(EscapeChar(c), Escape(most), EscapeChar(last));
    }
  }

  lemma NothingAdded(s: string)
    ensures s + "" == s && "" + s == s
  {
  }

  lemma {:induction false} EscapeBack(most: string, last: char)
    ensures Escape(most + [last]) == Escape(most) + EscapeChar(last)
  {
    assert (most + [last])[..|most|] == most;
  }

  lemma EscapedPiece(c: char, rest: string)
    ensures Piece(EscapeChar(c) + rest) == |EscapeChar(c)| && (EscapeChar(c) + rest)[|EscapeChar(c)|..] == rest
  {
    var s := EscapeChar(c) + rest;
    assert s[|EscapeChar(c)|..] == rest;
    if |EscapeChar(c)| == 6 {
      assert s[2] == '0' && s[3] == '0' && s[4] == Hex(c as int / 16) && s[5] == Hex(c as int % 16);
    }
  }

  lemma EscapedUnit(c: char, rest: string)
    requires |EscapeChar(c)| == 6
    ensures IsUnit(EscapeChar(c) + rest) && UnitOf(EscapeChar(c) + rest) == c as nat < 32
  {
    var s := EscapeChar(c) + rest;
    assert s[2] == '0' && s[3] == '0' && s[4] == Hex(c as int / 16) && s[5] == Hex(c as int % 16);
    assert HexValue(s[4]) == c as int / 16 && HexValue(s[5]) == c as int % 16;
  }

  lemma {:induction false} EscapedChar(c: char, rest: string)
    ensures Piece(EscapeChar(c) + rest) == |EscapeChar(c)| && (EscapeChar(c) + rest)[|EscapeChar(c)|..] == rest
    ensures Decoded(EscapeChar(c) + rest) == [c as nat] + Decoded(rest)
  {
    hide Piece, IsUnit, UnitOf;
    EscapedPiece(c, rest);
    if |EscapeChar(c)| == 6 {
      EscapedUnit(c, rest);
    }
  }

  lemma {:induction false} RawNext(s: string, n: nat)
    requires 0 < n == Piece(s) && RawText(s[n..])
    ensures RawText(s)
  {
  }

  lemma CodesFront(s: string)
    requires s != ""
    ensures CodesOf(s) == [s[0] as nat] + CodesOf(s[1..])
  {
  }

  /** What a string is written as may stand between quotes and reads as the string. */
  lemma {:induction false} EscapeReads(s: string)
    ensures RawText(Escape(s)) && Decoded(Escape(s)) == CodesOf(s)
    decreases |s|
  {
    if s != "" {
      EscapeReads(s[1..]);
      assert s == [s[0]] + s[1..];
      EscapeFront(s[0], s[1..]);
      EscapedChar(s[0], Escape(s[1..]));
      RawNext(EscapeChar(s[0]) + Escape(s[1..]), |EscapeChar(s[0])|);
      CodesFront(s);
    }
  }
}
