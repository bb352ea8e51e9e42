/**
  The `\uXXXX` codec (src/commands/utf8-conversion.ts, repeated in
  src/extension.ts). A JavaScript string is a sequence of UTF-16 code units;
  `charToUtf8` writes each unit as `\u` and four lowercase hex digits, and
  `utf8ToChar` keeps only the leftmost non-overlapping `\u` + four-hex-digit
  matches, each decoded to one code unit. Both work on code units, so a
  surrogate pair is two escapes.
 */
module Utf8Conversion {
  import opened Wrappers
  import Text

  /** One UTF-16 code unit. */
  type CodeUnit = x: int | 0 <= x < 0x1_0000

  type Units = seq<CodeUnit>

  const Backslash: CodeUnit := 0x5C
  const LowerU: CodeUnit := 0x75

  /** A code unit matching `[\dA-Fa-f]`. */
  predicate IsHexUnit(c: CodeUnit) {
    0x30 <= c <= 0x39 || 0x41 <= c <= 0x46 || 0x61 <= c <= 0x66
  }

  /** The digit value of a hex digit, in either case. */
  function HexValue(c: CodeUnit): (d: nat)
    requires IsHexUnit(c)
    ensures d < 16
  {
    if c <= 0x39 then c - 0x30 else if c <= 0x46 then c - 0x41 + 10 else c - 0x61 + 10
  }

  /** The lowercase hex digit `Number.prototype.toString(16)` writes. */
  function HexUnit(d: nat): (c: CodeUnit)
    requires d < 16
    ensures IsHexUnit(c) && HexValue(c) == d
    ensures !(0x41 <= c <= 0x46)
  {
    if d < 10 then 0x30 + d else 0x61 + d - 10
  }

  // ---------------------------------------------------------------------
  // charToUtf8
  // ---------------------------------------------------------------------

  /** `\u` and `c.toString(16).padStart(4, "0")`: a code unit is below
      0x10000, so its hex form has at most four digits and the padding makes
      exactly four, most significant first. */
  function EscapeUnit(c: CodeUnit): (e: Units)
    ensures |e| == 6
  {
    [Backslash, LowerU, HexUnit(c / 0x1000), HexUnit(c / 0x100 % 0x10), HexUnit(c / 0x10 % 0x10), HexUnit(c % 0x10)]
  }

  /** `charToUtf8`: the escapes of the code units, joined. */
  function CharToUtf8(s: Units): (r: Units)
    ensures |r| == 6 * |s|
  {
    if s == [] then [] else EscapeUnit(s[0]) + CharToUtf8(s[1..])
  }

  /** Every code unit becomes `\u` followed by four lowercase hex digits. */
  lemma {:induction false} CharToUtf8Shape(s: Units, k: nat)
    requires k < |s|
    ensures CharToUtf8(s)[6 * k..6 * k + 6] == EscapeUnit(s[k])
    ensures Match(CharToUtf8(s)[6 * k..])
  {
    if k > 0 {
      CharToUtf8Shape(s[1..], k - 1);
      assert CharToUtf8(s)[6 * k..] == CharToUtf8(s[1..])[6 * (k - 1)..];
    }
  }

  // ---------------------------------------------------------------------
  // utf8ToChar
  // ---------------------------------------------------------------------

  /** The text starts with a match of `\\u[\dA-Fa-f]{4}`. */
  predicate Match(s: Units) {
    |s| >= 6 && s[0] == Backslash && s[1] == LowerU
    && IsHexUnit(s[2]) && IsHexUnit(s[3]) && IsHexUnit(s[4]) && IsHexUnit(s[5])
  }

  /** `String.fromCharCode(parseInt(hex, 16))` for the four digits of a match. */
  function DecodeMatch(s: Units): CodeUnit
    requires Match(s)
  {
    HexValue(s[2]) * 0x1000 + HexValue(s[3]) * 0x100 + HexValue(s[4]) * 0x10 + HexValue(s[5])
  }

  /** `utf8ToChar`: scanning left to right, a match is decoded and skipped
      whole, and any other code unit is dropped; with no match at all the
      result is the empty string. */
  function Utf8ToChar(s: Units): (r: Units)
    ensures |r| <= |s| / 6
    decreases |s|
  {
    if s == [] then []
    else if Match(s) then [DecodeMatch(s)] + Utf8ToChar(s[6..])
    else Utf8ToChar(s[1..])
  }

  /** A code unit is the sum of its four hex digits by place value. */
  lemma {:induction false} FourDigits(c: CodeUnit)
    ensures c / 0x1000 < 0x10
    ensures c == (c / 0x1000) * 0x1000 + (c / 0x100 % 0x10) * 0x100 + (c / 0x10 % 0x10) * 0x10 + c % 0x10
  {
    var q1 := c / 0x10;
    var q2 := q1 / 0x10;
    var q3 := q2 / 0x10;
    assert c == 0x10 * q1 + c % 0x10;
    assert q1 == 0x10 * q2 + q1 % 0x10;
    assert q2 == 0x10 * q3 + q2 % 0x10;
    assert c / 0x100 == q2;
    assert c / 0x1000 == q3;
  }

  /** The escape of a code unit decodes back to it. */
  lemma {:induction false} EscapeDecodes(c: CodeUnit)
    ensures Match(EscapeUnit(c)) && DecodeMatch(EscapeUnit(c)) == c
  {
    FourDigits(c);
    var e := EscapeUnit(c);
    assert HexValue(e[2]) == c / 0x1000;
    assert HexValue(e[3]) == c / 0x100 % 0x10;
    assert HexValue(e[4]) == c / 0x10 % 0x10;
    assert HexValue(e[5]) == c % 0x10;
  }

  /** An escape in front of anything decodes to its code unit. */
  lemma {:induction false} DecodeEscapeThen(c: CodeUnit, rest: Units)
    ensures Utf8ToChar(EscapeUnit(c) + rest) == [c] + Utf8ToChar(rest)
  {
    var t := EscapeUnit(c) + rest;
    EscapeDecodes(c);
    assert t[..6] == EscapeUnit(c);
    assert t[6..] == rest;
    assert Match(t) && DecodeMatch(t) == DecodeMatch(EscapeUnit(c));
  }

  /** Decoding an encoding followed by anything yields the original code
      units followed by the decoding of the rest. */
  lemma {:induction false} DecodeEncodedPrefix(s: Units, rest: Units)
    ensures Utf8ToChar(CharToUtf8(s) + rest) == s + Utf8ToChar(rest)
  {
    if s == [] {
      assert CharToUtf8(s) + rest == rest;
    } else {
      var e := EscapeUnit(s[0]);
      var tail := CharToUtf8(s[1..]);
      assert CharToUtf8(s) == e + tail;
      Text.ConcatAssoc(e, tail, rest);
      DecodeEscapeThen(s[0], tail + rest);
      DecodeEncodedPrefix(s[1..], rest);
      Text.ConcatAssoc([s[0]], s[1..], Utf8ToChar(rest));
      assert [s[0]] + s[1..] == s;
    }
  }

  /** `utf8ToChar(charToUtf8(s)) == s`, surrogate halves included. */
  lemma {:induction false} RoundTrip(s: Units)
    ensures Utf8ToChar(CharToUtf8(s)) == s
  {
    DecodeEncodedPrefix(s, []);
    assert CharToUtf8(s) + [] == CharToUtf8(s);
  }

  /** Re-encoding a decoded encoding reproduces it. */
  lemma {:induction false} ReencodeStable(s: Units)
    ensures CharToUtf8(Utf8ToChar(CharToUtf8(s))) == CharToUtf8(s)
  {
    RoundTrip(s);
  }

  /** Text without a backslash holds no match and is dropped entirely, and so
      is such a prefix in front of anything. */
  lemma {:induction false} DropsNonEscapes(p: Units, s: Units)
    requires Backslash !in p
    ensures Utf8ToChar(p + s) == Utf8ToChar(s)
    ensures Utf8ToChar(p) == []
  {
    if p != [] {
      DropsNonEscapes(p[1..], s);
      assert (p + s)[1..] == p[1..] + s;
      assert p[0] != Backslash;
    } else {
      assert p + s == s;
    }
  }

  /** `utf8ToChar` returns the empty string exactly when nothing matches. */
  lemma {:induction false} EmptyIffNoMatch(s: Units)
    ensures Utf8ToChar(s) == [] <==> forall i :: 0 <= i < |s| ==> !Match(s[i..])
    decreases |s|
  {
    if s != [] {
      if Match(s) {
        assert Match(s[0..]);
      } else {
        EmptyIffNoMatch(s[1..]);
        forall i | 1 <= i < |s|
          ensures s[1..][i - 1..] == s[i..]
        {
        }
        if forall i :: 0 <= i < |s[1..]| ==> !Match(s[1..][i..]) {
          forall i | 0 <= i < |s| ensures !Match(s[i..]) {
            if i > 0 {
              assert s[1..][i - 1..] == s[i..];
            }
          }
        } else {
          var i :| 0 <= i < |s[1..]| && Match(s[1..][i..]);
          assert s[1..][i..] == s[i + 1..];
        }
      }
    }
  }

  /** Hex digits are accepted in either case: an upper-case digit decodes
      like its lower-case form. */
  lemma {:induction false} HexCaseInsensitive(c: CodeUnit)
    requires 0x41 <= c <= 0x46
    ensures IsHexUnit(c) && IsHexUnit(c + 0x20) && HexValue(c) == HexValue(c + 0x20)
  {
  }

  // ---------------------------------------------------------------------
  // Between Dafny strings and code units
  // ---------------------------------------------------------------------

  /** The UTF-16 code units of a string of Unicode scalar values: one unit
      below 0x10000, a surrogate pair above. */
  function Utf16Encode(s: string): Units {
    if s == [] then []
    else
      var c := s[0] as int;
      var units: Units := if c < 0x1_0000 then [c]
        else [0xD800 + (c - 0x1_0000) / 0x400, 0xDC00 + (c - 0x1_0000) % 0x400];
      units + Utf16Encode(s[1..])
  }

  /** The string a code-unit sequence stands for; `None` when it holds a
      surrogate half that is not part of a pair, which a Dafny string cannot
      hold. */
  function Utf16Decode(u: Units): Option<string>
    decreases |u|
  {
    if u == [] then Some([])
    else if 0xD800 <= u[0] < 0xDC00 && |u| >= 2 && 0xDC00 <= u[1] < 0xE000 then
      var high: int := u[0];
      var low: int := u[1];
      var c := 0x1_0000 + (high - 0xD800) * 0x400 + (low - 0xDC00);
      match Utf16Decode(u[2..])
      case Some(rest) => Some([c as char] + rest)
      case None => None
    else if 0xD800 <= u[0] < 0xE000 then None
    else
      match Utf16Decode(u[1..])
      case Some(rest) => Some([u[0] as char] + rest)
      case None => None
  }

  /** A character below 0x10000 is one code unit, which decodes back to it
      in front of anything. */
  lemma {:induction false} DecodeOneUnitThen(ch: char, u: Units)
    requires ch as int < 0x1_0000
    ensures Utf16Decode([ch as int] + u) ==
      match Utf16Decode(u) case Some(r) => Some([ch] + r) case None => None
  {
    var t: Units := [ch as int] + u;
    assert t[0] == ch as int && t[1..] == u;
  }

  /** A character above 0xFFFF is a surrogate pair, which decodes back to it
      in front of anything. */
  lemma {:induction false} DecodePairThen(ch: char, u: Units)
    requires ch as int >= 0x1_0000
    ensures var c := ch as int;
      Utf16Decode([0xD800 + (c - 0x1_0000) / 0x400, 0xDC00 + (c - 0x1_0000) % 0x400] + u) ==
      match Utf16Decode(u) case Some(r) => Some([ch] + r) case None => None
  {
    var c := ch as int;
    var high := 0xD800 + (c - 0x1_0000) / 0x400;
    var low := 0xDC00 + (c - 0x1_0000) % 0x400;
    assert 0x1_0000 + (high - 0xD800) * 0x400 + (low - 0xDC00) == c;
    var t: Units := [high, low] + u;
    assert t[0] == high && t[1] == low && t[2..] == u;
  }

  /** Decoding the UTF-16 form of a string gives the string back. */
  lemma {:induction false} Utf16RoundTrip(s: string)
    ensures Utf16Decode(Utf16Encode(s)) == Some(s)
  {
    if s != [] {
      Utf16RoundTrip(s[1..]);
      if s[0] as int < 0x1_0000 {
        DecodeOneUnitThen(s[0], Utf16Encode(s[1..]));
      } else {
        DecodePairThen(s[0], Utf16Encode(s[1..]));
      }
      assert [s[0]] + s[1..] == s;
    }
  }

  /** The encoding is plain ASCII. */
  lemma {:induction false} CharToUtf8Ascii(s: Units)
    ensures forall i :: 0 <= i < |CharToUtf8(s)| ==> CharToUtf8(s)[i] < 0x80
  {
    if s != [] {
      CharToUtf8Ascii(s[1..]);
      var e := EscapeUnit(s[0]);
      assert forall i :: 0 <= i < 6 ==> e[i] < 0x80;
    }
  }

  /** Code units below the surrogate range always decode, one character each. */
  lemma {:induction false} DecodeBelowSurrogates(u: Units)
    requires forall i :: 0 <= i < |u| ==> u[i] < 0xD800
    ensures Utf16Decode(u).Some? && |Utf16Decode(u).value| == |u|
    decreases |u|
  {
    if u != [] {
      DecodeBelowSurrogates(u[1..]);
    }
  }

  /** The encoding of any code units is a text the model's strings can hold. */
  lemma {:induction false} EncodeDecodes(u: Units)
    ensures Utf16Decode(CharToUtf8(u)).Some?
  {
    CharToUtf8Ascii(u);
    DecodeBelowSurrogates(CharToUtf8(u));
  }

  /** An ASCII text as code units. */
  function Ascii(s: string): (u: Units)
    requires forall i :: 0 <= i < |s| ==> s[i] as int < 0x80
    ensures |u| == |s|
  {
    if s == [] then [] else [s[0] as int] + Ascii(s[1..])
  }
}
