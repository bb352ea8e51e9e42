/**
  The JavaScript string primitives the transforms are built from: character
  classes, `trim`, `split("\n")`/`join("\n")`, and decimal rendering and
  parsing of integers. A `string` here stands for a JavaScript string read
  as a sequence of Unicode scalar values; only the `\uXXXX` codec works on
  UTF-16 code units, and it converts at its boundary.
 */
module Text {

  predicate IsDigit(c: char) { '0' <= c <= '9' }
  predicate IsAsciiLower(c: char) { 'a' <= c <= 'z' }
  predicate IsAsciiUpper(c: char) { 'A' <= c <= 'Z' }
  predicate IsAsciiLetter(c: char) { IsAsciiLower(c) || IsAsciiUpper(c) }
  predicate IsAsciiAlphanumeric(c: char) { IsAsciiLetter(c) || IsDigit(c) }

  /** The characters that `String.prototype.trim` removes and that the
      regular-expression class `\s` matches (WhiteSpace and LineTerminator). */
  predicate IsWhitespace(c: char) {
    c == '\t' || c == '\n' || c == '\U{B}' || c == '\U{C}' || c == '\r' || c == ' '
    || c == '\U{A0}' || c == '\U{1680}' || ('\U{2000}' <= c <= '\U{200A}')
    || c == '\U{2028}' || c == '\U{2029}' || c == '\U{202F}' || c == '\U{205F}'
    || c == '\U{3000}' || c == '\U{FEFF}'
  }

  predicate AllWhitespace(s: string) {
    forall i :: 0 <= i < |s| ==> IsWhitespace(s[i])
  }

  predicate AllDigits(s: string) {
    forall i :: 0 <= i < |s| ==> IsDigit(s[i])
  }

  /** Appending in two steps is appending once. */
  lemma {:induction false} ConcatAssoc<X>(a: seq<X>, b: seq<X>, c: seq<X>)
    ensures a + (b + c) == (a + b) + c
  {
  }

  /** The head and tail of a concatenation whose first part is not empty. */
  lemma {:induction false} ConcatTail<X>(a: seq<X>, b: seq<X>)
    requires a != []
    ensures (a + b)[0] == a[0] && (a + b)[1..] == a[1..] + b
  {
  }

  // ---------------------------------------------------------------------
  // trim
  // ---------------------------------------------------------------------

  /** Drops leading whitespace: the result is a suffix of `s`. */
  function TrimStart(s: string): (r: string)
    ensures |r| <= |s| && r == s[|s| - |r|..]
    ensures r == [] || !IsWhitespace(r[0])
    ensures AllWhitespace(s[..|s| - |r|])
  {
    if s != [] && IsWhitespace(s[0]) then TrimStart(s[1..]) else s
  }

  /** Drops trailing whitespace: the result is a prefix of `s`. */
  function TrimEnd(s: string): (r: string)
    ensures |r| <= |s| && r == s[..|r|]
    ensures r == [] || !IsWhitespace(r[|r| - 1])
    ensures AllWhitespace(s[|r|..])
  {
    if s != [] && IsWhitespace(s[|s| - 1]) then TrimEnd(s[..|s| - 1]) else s
  }

  /** `String.prototype.trim`: the infix of `s` left once leading and
      trailing whitespace is dropped; it neither starts nor ends with whitespace. */
  function Trim(s: string): (r: string)
    ensures |r| <= |s|
    ensures |r| <= |TrimStart(s)| && r == s[|s| - |TrimStart(s)|..][..|r|]
    ensures r == [] || (!IsWhitespace(r[0]) && !IsWhitespace(r[|r| - 1]))
  {
    TrimEnd(TrimStart(s))
  }

  /** `s.trim()` is empty exactly when `s` is all whitespace. */
  lemma {:induction false} TrimEmpty(s: string)
    ensures Trim(s) == [] <==> AllWhitespace(s)
  {
    var t := TrimStart(s);
    if TrimEnd(t) == [] {
      assert t[0..] == t;
      assert s[..|s| - |t|] == s;
    } else {
      assert s[|s| - |t|] == t[0] && !IsWhitespace(t[0]);
    }
  }

  /** A text without whitespace at either end is its own trim. */
  lemma {:induction false} TrimKeeps(s: string)
    requires s == [] || (!IsWhitespace(s[0]) && !IsWhitespace(s[|s| - 1]))
    ensures Trim(s) == s
  {
    assert TrimStart(s) == s;
  }

  // ---------------------------------------------------------------------
  // split("\n") and join("\n")
  // ---------------------------------------------------------------------

  /** `s.split("\n")`: the pieces between line feeds, at least one. */
  function Split(s: string): (lines: seq<string>)
    ensures |lines| >= 1
    ensures forall k :: 0 <= k < |lines| ==> '\n' !in lines[k]
    decreases |s|
  {
    if s == [] then [""]
    else
      var rest := Split(s[1..]);
      if s[0] == '\n' then [""] + rest
      else [[s[0]] + rest[0]] + rest[1..]
  }

  /** `lines.join("\n")`. */
  function Join(lines: seq<string>): string
    requires |lines| >= 1
  {
    if |lines| == 1 then lines[0] else lines[0] + "\n" + Join(lines[1..])
  }

  /** Number of occurrences of `c` in `s`. */
  function Occurrences(s: string, c: char): nat {
    if s == [] then 0 else (if s[0] == c then 1 else 0) + Occurrences(s[1..], c)
  }

  /** Joining the lines of a split gives back the text. */
  lemma {:induction false} JoinSplit(s: string)
    ensures Join(Split(s)) == s
    decreases |s|
  {
    if s != [] {
      JoinSplit(s[1..]);
      var rest := Split(s[1..]);
      if s[0] != '\n' && |rest| > 1 {
        assert Join(rest) == rest[0] + "\n" + Join(rest[1..]);
      }
    }
  }

  /** Splitting the join of line-feed-free lines gives back the lines. */
  lemma {:induction false} SplitJoin(lines: seq<string>)
    requires |lines| >= 1
    requires forall k :: 0 <= k < |lines| ==> '\n' !in lines[k]
    ensures Split(Join(lines)) == lines
  {
    if |lines| == 1 {
      SplitLine(lines[0], []);
    } else {
      SplitJoin(lines[1..]);
      var tail := "\n" + Join(lines[1..]);
      SplitLine(lines[0], tail);
      assert tail[1..] == Join(lines[1..]);
      assert Join(lines) == lines[0] + tail;
      assert [lines[0]] + lines[1..] == lines;
    }
  }

  /** A line-feed-free prefix becomes the first line; the rest is split on. */
  lemma {:induction false} SplitLine(a: string, b: string)
    requires '\n' !in a
    ensures b == [] ==> Split(a) == [a]
    ensures b != [] && b[0] == '\n' ==> Split(a + b) == [a] + Split(b[1..])
    decreases |a|
  {
    if a != [] {
      SplitLine(a[1..], b);
      assert (a + b)[1..] == a[1..] + b;
      assert [a[0]] + a[1..] == a;
      if b == [] { assert a + b == a; }
    } else if b != [] && b[0] == '\n' {
      assert a + b == b;
    }
  }

  /** A text has one more line than it has line feeds. */
  lemma {:induction false} SplitCount(s: string)
    ensures |Split(s)| == Occurrences(s, '\n') + 1
    decreases |s|
  {
    if s != [] { SplitCount(s[1..]); }
  }

  // ---------------------------------------------------------------------
  // Decimal rendering (`String(n)`) and parsing (`Number(digits)`)
  // ---------------------------------------------------------------------

  function DigitChar(d: nat): (c: char)
    requires d < 10
    ensures IsDigit(c) && c as int - '0' as int == d
  {
    ('0' as int + d) as char
  }

  function DigitValue(c: char): nat
    requires IsDigit(c)
  {
    c as int - '0' as int
  }

  /** `String(n)` for a non-negative integer: canonical decimal, no leading zero. */
  function NatToString(n: nat): (s: string)
    ensures |s| >= 1 && AllDigits(s)
    ensures s[0] == '0' ==> n == 0 && s == "0"
    decreases n
  {
    if n < 10 then [DigitChar(n)] else NatToString(n / 10) + [DigitChar(n % 10)]
  }

  /** `String(v)` for an integer: a minus sign before the magnitude when negative. */
  function IntToString(v: int): string {
    if v < 0 then "-" + NatToString(-v) else NatToString(v)
  }

  /** The value of a run of decimal digits; leading zeros are allowed. */
  function DigitsValue(s: string): nat
    requires AllDigits(s)
  {
    if s == [] then 0 else 10 * DigitsValue(s[..|s| - 1]) + DigitValue(s[|s| - 1])
  }

  function Zeros(k: nat): (z: string)
    ensures |z| == k && AllDigits(z) && forall i :: 0 <= i < k ==> z[i] == '0'
  {
    seq(k, _ => '0')
  }

  /** `s.padStart(width, "0")`. */
  function PadStart(s: string, width: int): string {
    if width > |s| then Zeros(width - |s|) + s else s
  }

  /** Padding gives the longer of `width` and the text, as zeros followed by
      the text: it never truncates. */
  lemma {:induction false} PadStartShape(s: string, width: int)
    ensures |PadStart(s, width)| == if width > |s| then width else |s|
    ensures PadStart(s, width) == Zeros(|PadStart(s, width)| - |s|) + s
  {
    if width <= |s| {
      assert Zeros(0) + s == s;
    }
  }

  /** Parsing the rendering of a natural number gives the number back. */
  lemma {:induction false} DigitsValueNatToString(n: nat)
    ensures DigitsValue(NatToString(n)) == n
    decreases n
  {
    if n >= 10 {
      DigitsValueNatToString(n / 10);
      var s := NatToString(n);
      assert s[..|s| - 1] == NatToString(n / 10);
    }
  }

  /** Leading zeros do not change the value of a digit run. */
  lemma {:induction false} DigitsValueLeadingZeros(k: nat, s: string)
    requires AllDigits(s)
    ensures DigitsValue(Zeros(k) + s) == DigitsValue(s)
    decreases |s|, k
  {
    if s == [] {
      assert Zeros(k) + s == Zeros(k);
      if k > 0 {
        assert Zeros(k)[..k - 1] == Zeros(k - 1);
        DigitsValueLeadingZeros(k - 1, []);
        assert Zeros(k - 1) + [] == Zeros(k - 1);
      }
    } else {
      var t := Zeros(k) + s;
      assert t[..|t| - 1] == Zeros(k) + s[..|s| - 1];
      DigitsValueLeadingZeros(k, s[..|s| - 1]);
    }
  }

  /** ASCII-only case mapping (the shapes it is applied to are ASCII). */
  function ToUpperAscii(c: char): (u: char)
    ensures !IsAsciiLower(u)
    ensures IsAsciiAlphanumeric(c) <==> IsAsciiAlphanumeric(u)
  {
    if IsAsciiLower(c) then (c as int - 32) as char else c
  }

  function ToLowerAscii(c: char): (l: char)
    ensures !IsAsciiUpper(l)
    ensures IsAsciiAlphanumeric(c) <==> IsAsciiAlphanumeric(l)
  {
    if IsAsciiUpper(c) then (c as int + 32) as char else c
  }
}
