/**
 The tokens of JSON spelled out (RFC 8259, sections 2, 6 and 7): white space, the pieces of a string and what they
 stand for, and the fraction and exponent of a number.
 */
module JsonGrammar {
  import opened Basics
  import opened Decimal
  import opened JsonStrings
  import opened JsonSyntax

  // ----- white space and words

  lemma SpaceExactly(s: string)
    ensures Spaces(s) <==> forall i :: 0 <= i < |s| ==> s[i] as nat == 32 || s[i] as nat == 9 || s[i] as nat == 10 || s[i] as nat == 13
  {
  }

  // ----- strings

  predicate IsNibble(c: char) { c in "0123456789abcdefABCDEF" }

  /** A character that stands for itself, an escape of one letter, or an escape of four hexadecimal digits. */
  predicate IsPiece(p: string) {
    || (|p| == 1 && p[0] as nat >= 32 && p[0] as nat != 34 && p[0] as nat != 92)
    || (|p| == 2 && p[0] as nat == 92 && p[1] in "\"\\/bfnrt")
    || (|p| == 6 && p[0] as nat == 92 && p[1] == 'u' && IsNibble(p[2]) && IsNibble(p[3]) && IsNibble(p[4]) && IsNibble(p[5]))
  }

  predicate ArePieces(ps: seq<string>) { forall i :: 0 <= i < |ps| ==> IsPiece(ps[i]) }

  function Concat(ps: seq<string>): string { if ps == [] then "" else ps[0] + Concat(ps[1..]) }

  lemma NibbleExactly(c: char)
    ensures IsNibble(c) <==> IsHex(c)
  {
    var all := "0123456789abcdefABCDEF";
    if '0' <= c <= '9' { assert all[(c - '0') as int] == c; }
    if 'a' <= c <= 'f' { assert all[10 + (c - 'a') as int] == c; }
    if 'A' <= c <= 'F' { assert all[16 + (c - 'A') as int] == c; }
  }

  lemma LetterExactly(c: char)
    ensures c in "\"\\/bfnrt" <==> c in SHORT
  {
    if c in SHORT {
      var all := "\"\\/bfnrt";
      assert c == all[0] || c == all[1] || c == all[2] || c == all[3] || c == all[4] || c == all[5] || c == all[6] || c == all[7];
    }
  }

  lemma PieceHere(p: string, rest: string)
    requires IsPiece(p)
    ensures Piece(p + rest) == |p|
  {
    hide IsNibble, IsHex, SHORT;
    var s := p + rest;
    assert forall i :: 0 <= i < |p| ==> s[i] == p[i];
    if |p| == 2 {
      LetterExactly(p[1]);
    }
    if |p| == 6 {
      UnitNotShort();
      NibbleExactly(p[2]);
      NibbleExactly(p[3]);
      NibbleExactly(p[4]);
      NibbleExactly(p[5]);
    }
  }

  lemma UnitNotShort()
    ensures 'u' !in SHORT
  {
  }

  lemma PieceFound(s: string)
    requires Piece(s) > 0
    ensures IsPiece(s[..Piece(s)])
  {
    hide IsNibble, IsHex, SHORT;
    var p := s[..Piece(s)];
    assert forall i :: 0 <= i < |p| ==> p[i] == s[i];
    if |p| == 2 {
      LetterExactly(p[1]);
    }
    if |p| == 6 {
      NibbleExactly(p[2]);
      NibbleExactly(p[3]);
      NibbleExactly(p[4]);
      NibbleExactly(p[5]);
    }
  }

  lemma {:induction false} RawOfPieces(ps: seq<string>)
    requires ArePieces(ps)
    ensures RawText(Concat(ps))
    decreases |ps|
  {
    hide Piece, IsPiece;
    if ps != [] {
      var rest := Concat(ps[1..]);
      PieceHere(ps[0], rest);
      PieceNotEmpty(ps[0]);
      assert (ps[0] + rest)[|ps[0]|..] == rest;
      RawOfPieces(ps[1..]);
    }
  }

  lemma PieceNotEmpty(p: string)
    requires IsPiece(p)
    ensures p != ""
  {
  }

  lemma {:induction false} PiecesOf(s: string) returns (ps: seq<string>)
    requires RawText(s)
    ensures ArePieces(ps) && Concat(ps) == s
    decreases |s|
  {
    hide Piece, IsPiece;
    ps := [];
    if s != "" {
      var k := Piece(s);
      PieceFound(s);
      var rest := PiecesOf(s[k..]);
      ps := [s[..k]] + rest;
      assert ps[1..] == rest && s == s[..k] + s[k..];
    }
  }

  /** Text may stand between quotes exactly when it is made of pieces. */
  lemma {:induction false} RawExactly(s: string)
    ensures RawText(s) <==> exists ps :: ArePieces(ps) && Concat(ps) == s
  {
    hide RawText;
    if RawText(s) {
      var ps := PiecesOf(s);
    }
    if ps :| ArePieces(ps) && Concat(ps) == s {
      RawOfPieces(ps);
    }
  }

  // ----- what the pieces stand for

  function Nibble(c: char): int {
    if '0' <= c <= '9' then c as int - 48 else if 'a' <= c <= 'f' then c as int - 97 + 10 else c as int - 65 + 10
  }

  function CodeOf(p: string): int
    requires IsPiece(p)
  {
    if |p| == 1 then p[0] as int
    else if |p| == 2 then
      match p[1]
      case 'b' => 8
      case 't' => 9
      case 'n' => 10
      case 'f' => 12
      case 'r' => 13
      case c => c as int
    else 4096 * Nibble(p[2]) + 256 * Nibble(p[3]) + 16 * Nibble(p[4]) + Nibble(p[5])
  }

  /** Two escapes that are the halves of one character beyond 65535. */
  predicate ArePair(p: string, q: string) {
    IsPiece(p) && IsPiece(q) && |p| == |q| == 6 && 0xD800 <= CodeOf(p) < 0xDC00 && 0xDC00 <= CodeOf(q) < 0xE000
  }

  function CodesOfPieces(ps: seq<string>): seq<int>
    requires ArePieces(ps)
    decreases |ps|
  {
    if ps == [] then []
    else if |ps| >= 2 && ArePair(ps[0], ps[1]) then
      [65536 + 1024 * (CodeOf(ps[0]) - 0xD800) + CodeOf(ps[1]) - 0xDC00] + CodesOfPieces(ps[2..])
    else [CodeOf(ps[0])] + CodesOfPieces(ps[1..])
  }

  lemma NibbleValue(c: char)
    requires IsHex(c)
    ensures Nibble(c) == HexValue(c)
  {
  }

  lemma UnitExactly(p: string, rest: string)
    requires IsPiece(p) && |p| == 6
    ensures IsUnit(p + rest) && UnitOf(p + rest) == CodeOf(p)
  {
    hide IsNibble, IsHex, Nibble, HexValue, SHORT;
    var s := p + rest;
    assert forall i :: 0 <= i < 6 ==> s[i] == p[i];
    NibbleExactly(p[2]);
    NibbleExactly(p[3]);
    NibbleExactly(p[4]);
    NibbleExactly(p[5]);
    NibbleValue(p[2]);
    NibbleValue(p[3]);
    NibbleValue(p[4]);
    NibbleValue(p[5]);
  }

  lemma LetterCode(p: string)
    requires IsPiece(p) && |p| == 2
    ensures p[1] in SHORT && SHORT[p[1]] == CodeOf(p)
  {
    LetterExactly(p[1]);
  }

  /** A unit is found where a piece of six characters is. */
  lemma UnitHere(p: string, rest: string)
    requires IsPiece(p)
    ensures IsUnit(p + rest) <==> |p| == 6
  {
    var s := p + rest;
    assert forall i :: 0 <= i < |p| ==> s[i] == p[i];
    if |p| == 6 {
      UnitExactly(p, rest);
    }
    if |p| == 2 {
      LetterExactly(p[1]);
    }
  }

  lemma Behind(p: string, rest: string)
    ensures (p + rest)[|p|..] == rest
  {
  }

  /** What one piece adds, and where a pair is. */
  lemma {:induction false} DecodedFirst(p: string, rest: string)
    requires IsPiece(p)
    ensures |p| < 6 ==> Decoded(p + rest) == [CodeOf(p)] + Decoded(rest)
    ensures var pair := |p| == 6 && 0xD800 <= CodeOf(p) < 0xDC00 && IsUnit(rest) && 0xDC00 <= UnitOf(rest) < 0xE000;
      |p| == 6 ==>
        Decoded(p + rest) == if pair then [65536 + 1024 * (CodeOf(p) - 0xD800) + (UnitOf(rest) - 0xDC00)] + Decoded(rest[6..])
                             else [CodeOf(p)] + Decoded(rest)
  {
    hide IsUnit, UnitOf, IsPiece, Piece, SHORT;
    PieceHere(p, rest);
    PieceSizes(p);
    Behind(p, rest);
    if |p| == 6 {
      UnitExactly(p, rest);
    } else if |p| == 2 {
      LetterCode(p);
      assert (p + rest)[1] == p[1];
    } else {
      assert (p + rest)[0] == p[0];
    }
  }

  lemma PieceSizes(p: string)
    requires IsPiece(p)
    ensures |p| == 1 || |p| == 2 || |p| == 6
  {
  }

  /** A string reads as what its pieces stand for. */
  lemma {:induction false} DecodedExactly(ps: seq<string>)
    requires ArePieces(ps)
    ensures Decoded(Concat(ps)) == CodesOfPieces(ps)
    decreases |ps|
  {
    hide IsPiece, Decoded, IsUnit, UnitOf, CodeOf;
    if ps == [] {
      NothingDecoded();
    } else {
      var rest := Concat(ps[1..]);
      PieceSizes(ps[0]);
      DecodedFirst(ps[0], rest);
      DecodedExactly(ps[1..]);
      if |ps| >= 2 {
        var more := Concat(ps[2..]);
        assert ps[1..][1..] == ps[2..] && rest == ps[1] + more;
        UnitHere(ps[1], more);
        if |ps[1]| == 6 {
          UnitExactly(ps[1], more);
        }
        Behind(ps[1], more);
        DecodedExactly(ps[2..]);
      } else {
        NoUnit();
      }
    }
  }

  lemma NothingDecoded()
    ensures Decoded("") == []
  {
  }

  lemma NoUnit()
    ensures !IsUnit("")
  {
  }

  /** How a character is written: itself, unless it is a quote, a backslash or a control character. */
  lemma EscapeExactly(c: char)
    ensures var p := EscapeChar(c);
      && IsPiece(p) && CodeOf(p) == c as int
      && (|p| == 1 <==> c as int >= 32 && c as int != 34 && c as int != 92)
      && (|p| == 2 <==> c as int == 34 || c as int == 92 || 8 <= c as int <= 10 || c as int == 12 || c as int == 13)
      && (|p| == 6 ==> p[4] !in "ABCDEF" && p[5] !in "ABCDEF")
  {
    hide IsNibble, Nibble;
    var p := EscapeChar(c);
    if |p| == 6 {
      HexDigits(p[2]);
      HexDigits(p[3]);
      HexDigits(p[4]);
      HexDigits(p[5]);
    }
  }

  lemma HexDigits(c: char)
    ensures '0' <= c <= '9' || 'a' <= c <= 'f' ==> IsNibble(c) && c !in "ABCDEF" && Hex(Nibble(c)) == c
    ensures '0' <= c <= '9' ==> Nibble(c) == c as int - 48
    ensures 'a' <= c <= 'f' ==> Nibble(c) == c as int - 87
  {
    hide IsNibble;
    NibbleExactly(c);
  }

  // ----- numbers

  predicate IsDigits(s: string) { s != "" && forall i :: 0 <= i < |s| ==> '0' <= s[i] <= '9' }

  predicate IsFraction(s: string) { s == "" || (s[0] == '.' && IsDigits(s[1..])) }

  predicate IsExponent(s: string) {
    s == "" || ((s[0] == 'e' || s[0] == 'E') && (IsDigits(s[1..]) || (|s| > 1 && (s[1] == '+' || s[1] == '-') && IsDigits(s[2..]))))
  }

  lemma {:induction false} DigitsWhole(s: string)
    ensures DigitsOf(s) == s <==> AllDigits(s)
  {
    if s != "" {
      DigitsWhole(s[1..]);
      assert s == [s[0]] + s[1..];
    }
  }

  /** The digits at the start of a text end where something else comes. */
  lemma {:induction false} DigitsUpTo(d: string, rest: string)
    requires AllDigits(d) && (rest != "" ==> !IsDigit(rest[0]))
    ensures DigitsOf(d + rest) == d
  {
    if d != "" {
      assert (d + rest)[1..] == d[1..] + rest;
      DigitsUpTo(d[1..], rest);
      assert d == [d[0]] + d[1..];
    } else {
      assert d + rest == rest;
    }
  }

  lemma ExponentWhole(e: string)
    ensures ExponentOf(e) == e <==> IsExponent(e)
  {
    hide DigitsOf, AllDigits;
    if e != "" && (e[0] == 'e' || e[0] == 'E') {
      if |e| > 1 && (e[1] == '+' || e[1] == '-') {
        assert e[1..][0] == e[1];
        ExponentDigits(e, 2);
      } else {
        ExponentDigits(e, 1);
      }
    }
  }

  lemma ExponentDigits(e: string, sign: nat)
    requires sign <= |e|
    ensures DigitsOf(e[sign..]) != "" && e[..sign + |DigitsOf(e[sign..])|] == e <==> IsDigits(e[sign..])
  {
    DigitsWhole(e[sign..]);
    var d := DigitsOf(e[sign..]);
    assert e[..sign + |d|] == e <==> |d| == |e[sign..]|;
  }

  lemma FractionUpTo(f: string, e: string)
    requires IsFraction(f) && IsExponent(e)
    ensures FractionOf(f + e) == f
  {
    if f == "" {
      assert f + e == e;
    } else {
      assert (f + e)[1..] == f[1..] + e;
      DigitsUpTo(f[1..], e);
      assert f == f[..1] + f[1..];
    }
  }

  lemma FractionFound(s: string)
    ensures IsFraction(FractionOf(s))
  {
    var f := FractionOf(s);
    if f != "" {
      assert f[1..] == DigitsOf(s[1..]);
    }
  }

  /** A number is a float exactly when a fraction, an exponent or both follow its digits. */
  lemma TailExactly(t: string)
    ensures TailOf(t) == t <==> exists f, e :: IsFraction(f) && IsExponent(e) && t == f + e
  {
    hide FractionOf, ExponentOf, IsFraction, IsExponent;
    if TailOf(t) == t {
      var f := FractionOf(t);
      FractionFound(t);
      var e := t[|f|..];
      assert t == f + e;
      assert ExponentOf(e) == e by { assert |f + ExponentOf(e)| == |t|; }
      ExponentWhole(e);
    }
    if f, e :| IsFraction(f) && IsExponent(e) && t == f + e {
      FractionUpTo(f, e);
      ExponentWhole(e);
      assert t[|f|..] == e;
    }
  }

  /** A token is well formed exactly when its string is made of pieces and its float has a fraction or an exponent. */
  lemma TokenExactly(t: Scalar)
    ensures TokenOk(t) <==>
      && (t.Str? ==> exists ps :: ArePieces(ps) && Concat(ps) == t.raw)
      && (t.Float? ==> t.tail != "" && exists f, e :: IsFraction(f) && IsExponent(e) && t.tail == f + e)
  {
    hide RawText, TailOf, IsPiece, IsFraction, IsExponent, ArePieces, Concat;
    if t.Str? {
      RawExactly(t.raw);
    }
    if t.Float? {
      TailExactly(t.tail);
    }
  }

  lemma WordsExactly(s: string)
    ensures (exists w :: WordText(w) == s) <==>
      s == "true" || s == "false" || s == "null" || s == "NaN" || s == "Infinity" || s == "-Infinity"
  {
    assert WordText(True) == "true" && WordText(False) == "false" && WordText(Null) == "null";
    assert WordText(NotANumber) == "NaN" && WordText(Infinity) == "Infinity" && WordText(MinusInfinity) == "-Infinity";
  }
}
