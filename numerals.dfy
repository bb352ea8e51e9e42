/**
  The scanner behind every `str.replace(/-?\d+/g, ...)` of the numeric
  transforms. A string is cut into the leftmost, greedy, non-overlapping
  matches of `-?\d+` (`Num` pieces) and the characters between them (`Lit`
  pieces). A minus sign belongs to a numeral exactly when a digit follows it.
 */
module Numerals {
  import opened Text

  datatype Piece = Lit(c: char) | Num(text: string)

  /** A match of `-?\d+`: an optional minus sign, then at least one digit. */
  predicate IsNumeral(t: string) {
    if |t| > 0 && t[0] == '-' then |t| >= 2 && AllDigits(t[1..]) else |t| >= 1 && AllDigits(t)
  }

  /** `Number(t)` for a matched numeral; leading zeros are read as decimal. */
  function Value(t: string): int
    requires IsNumeral(t)
  {
    var magnitude: int := if t[0] == '-' then DigitsValue(t[1..]) else DigitsValue(t);
    if t[0] == '-' then -magnitude else magnitude
  }

  /** Length of the longest all-digit prefix of `s`. */
  function DigitRun(s: string): (n: nat)
    ensures n <= |s| && AllDigits(s[..n])
    ensures n < |s| ==> !IsDigit(s[n])
  {
    if s != [] && IsDigit(s[0]) then
      var n := 1 + DigitRun(s[1..]);
      assert s[..n] == [s[0]] + s[1..][..n - 1];
      n
    else 0
  }

  /** Every numeral piece holds a match of `-?\d+`. */
  predicate WellFormed(ps: seq<Piece>) {
    forall k :: 0 <= k < |ps| && ps[k].Num? ==> IsNumeral(ps[k].text)
  }

  /** The scan that `String.prototype.replace` with `/-?\d+/g` performs. */
  function Scan(s: string): (ps: seq<Piece>)
    ensures WellFormed(ps)
    decreases |s|
  {
    if s == [] then []
    else if s[0] == '-' && |s| > 1 && IsDigit(s[1]) then
      var n := 1 + DigitRun(s[1..]);
      assert s[..n][1..] == s[1..][..n - 1];
      [Num(s[..n])] + Scan(s[n..])
    else if IsDigit(s[0]) then
      var n := DigitRun(s);
      [Num(s[..n])] + Scan(s[n..])
    else
      [Lit(s[0])] + Scan(s[1..])
  }

  function PieceText(p: Piece): string {
    match p
    case Lit(c) => [c]
    case Num(t) => t
  }

  /** The text a sequence of pieces stands for. */
  function Flatten(ps: seq<Piece>): string {
    if ps == [] then "" else PieceText(ps[0]) + Flatten(ps[1..])
  }

  /** The matched numerals, in order. */
  function Matches(ps: seq<Piece>): (ns: seq<string>)
    requires WellFormed(ps)
    ensures |ns| <= |ps|
    ensures forall k :: 0 <= k < |ns| ==> IsNumeral(ns[k])
  {
    if ps == [] then []
    else if ps[0].Num? then [ps[0].text] + Matches(ps[1..])
    else Matches(ps[1..])
  }

  /** Number of numerals matched in `s`. */
  function Count(s: string): nat {
    |Matches(Scan(s))|
  }

  /** Replaces the k-th numeral by `reps[k]` and keeps every other character
      where it is: what `replace` does with one replacement per match. */
  function Substitute(ps: seq<Piece>, reps: seq<string>): string
    requires WellFormed(ps) && |reps| == |Matches(ps)|
  {
    if ps == [] then ""
    else match ps[0]
      case Lit(c) => [c] + Substitute(ps[1..], reps)
      case Num(_) => reps[0] + Substitute(ps[1..], reps[1..])
  }

  /** The scan loses and invents no character. */
  lemma {:induction false} FlattenScan(s: string)
    ensures Flatten(Scan(s)) == s
    decreases |s|
  {
    if s != [] {
      var n := if s[0] == '-' && |s| > 1 && IsDigit(s[1]) then 1 + DigitRun(s[1..])
        else if IsDigit(s[0]) then DigitRun(s) else 1;
      var head := if n == 1 && !IsDigit(s[0]) then Lit(s[0]) else Num(s[..n]);
      assert Scan(s) == [head] + Scan(s[n..]);
      assert PieceText(head) == s[..n];
      FlattenCons(head, Scan(s[n..]));
      FlattenScan(s[n..]);
      assert s[..n] + s[n..] == s;
    }
  }

  /** Flattening a piece in front of others puts its text in front. */
  lemma {:induction false} FlattenCons(p: Piece, ps: seq<Piece>)
    ensures Flatten([p] + ps) == PieceText(p) + Flatten(ps)
  {
    assert ([p] + ps)[0] == p && ([p] + ps)[1..] == ps;
  }


  /** Substituting every numeral by its own text gives back the scanned text. */
  lemma {:induction false} SubstituteIdentity(ps: seq<Piece>)
    requires WellFormed(ps)
    ensures Substitute(ps, Matches(ps)) == Flatten(ps)
  {
    if ps != [] {
      SubstituteIdentity(ps[1..]);
    }
  }

  /** When nothing matched, substitution is the identity. */
  lemma {:induction false} NoNumeralsIdentity(s: string)
    requires Count(s) == 0
    ensures Substitute(Scan(s), []) == s
  {
    SubstituteIdentity(Scan(s));
    FlattenScan(s);
  }

  /** `/-?\d+/` matches somewhere exactly when the text holds an ASCII digit. */
  lemma {:induction false} CountZeroIffNoDigit(s: string)
    ensures Count(s) == 0 <==> forall i :: 0 <= i < |s| ==> !IsDigit(s[i])
    decreases |s|
  {
    if s != [] {
      var ps := Scan(s);
      if s[0] == '-' && |s| > 1 && IsDigit(s[1]) {
        assert Matches(ps) != [];
      } else if IsDigit(s[0]) {
        assert Matches(ps) != [];
      } else {
        CountZeroIffNoDigit(s[1..]);
        assert ps[1..] == Scan(s[1..]);
        assert Matches(ps) == Matches(Scan(s[1..]));
        if forall i :: 1 <= i < |s| ==> !IsDigit(s[i]) {
          assert forall i :: 0 <= i < |s[1..]| ==> !IsDigit(s[1..][i]);
        } else {
          var i :| 1 <= i < |s| && IsDigit(s[i]);
          assert IsDigit(s[1..][i - 1]);
        }
      }
    }
  }

  /** An all-digit string is one digit run. */
  lemma {:induction false} DigitRunAll(s: string)
    requires AllDigits(s)
    ensures DigitRun(s) == |s|
  {
    if s != [] {
      DigitRunAll(s[1..]);
    }
  }

  /** A digit run stops at the first non-digit. */
  lemma {:induction false} DigitRunPrefix(a: string, b: string)
    requires AllDigits(a) && (b == [] || !IsDigit(b[0]))
    ensures DigitRun(a + b) == |a|
    decreases |a|
  {
    if a != [] {
      assert (a + b)[1..] == a[1..] + b;
      DigitRunPrefix(a[1..], b);
    } else {
      assert a + b == b;
    }
  }

  /** A numeral that no digit follows is scanned as one match. */
  lemma {:induction false} ScanNumeral(t: string, rest: string)
    requires IsNumeral(t) && (rest == [] || !IsDigit(rest[0]))
    ensures Scan(t + rest) == [Num(t)] + Scan(rest)
  {
    var s := t + rest;
    if t[0] == '-' {
      assert s[1..] == t[1..] + rest;
      DigitRunPrefix(t[1..], rest);
    } else {
      DigitRunPrefix(t, rest);
    }
    assert s[..|t|] == t && s[|t|..] == rest;
  }

  /** A character that starts no numeral is scanned as itself. */
  lemma {:induction false} ScanLiteral(c: char, rest: string)
    requires !IsDigit(c) && !(c == '-' && rest != [] && IsDigit(rest[0]))
    ensures Scan([c] + rest) == [Lit(c)] + Scan(rest)
  {
    assert ([c] + rest)[1..] == rest;
  }

  /** The scan of a canonical decimal `String(v)` is that one numeral, worth `v`. */
  lemma {:induction false} ScanIntToString(v: int)
    ensures Scan(IntToString(v)) == [Num(IntToString(v))]
    ensures IsNumeral(IntToString(v)) && Value(IntToString(v)) == v
  {
    var t := IntToString(v);
    if v < 0 {
      var d := NatToString(-v);
      assert t == "-" + d && t[1..] == d;
      DigitRunAll(d);
      assert t[..1 + |d|] == t;
      assert Scan(t) == [Num(t)] + Scan([]);
      DigitsValueNatToString(-v);
    } else {
      DigitRunAll(t);
      assert t[..|t|] == t;
      assert Scan(t) == [Num(t)] + Scan([]);
      DigitsValueNatToString(v);
    }
  }

  /** Starts a numeral: a digit, or a minus sign followed by a digit. */
  predicate StartsNumeral(a: string) {
    a != [] && ((a[0] == '-' && |a| > 1 && IsDigit(a[1])) || IsDigit(a[0]))
  }

  /** Scanning splits at any point that no digit follows: a match never
      reaches across it. */
  lemma {:induction false} ScanAppend(a: string, b: string)
    requires b == [] || !IsDigit(b[0])
    ensures Scan(a + b) == Scan(a) + Scan(b)
    decreases |a|
  {
    if a == [] {
      assert a + b == b;
    } else if StartsNumeral(a) {
      ScanFirstNumeral(a);
      var t := Scan(a)[0].text;
      ScanAppend(a[|t|..], b);
      ScanAppendNumeral(a, b);
    } else {
      ScanAppend(a[1..], b);
      ScanAppendLiteral(a, b);
    }
  }

  /** The step of `ScanAppend` for a leading numeral. */
  lemma {:induction false} ScanAppendNumeral(a: string, b: string)
    requires StartsNumeral(a) && (b == [] || !IsDigit(b[0]))
    requires var t := Scan(a)[0].text;
      |t| <= |a| && Scan(a[|t|..] + b) == Scan(a[|t|..]) + Scan(b)
    ensures Scan(a + b) == Scan(a) + Scan(b)
  {
    ScanFirstNumeral(a);
    var t := Scan(a)[0].text;
    var rest := a[|t|..];
    ScanNumeralThen(a, b);
    ConsAssoc(Num(t), Scan(a + b), Scan(a), Scan(rest), Scan(b), Scan(rest + b));
  }

  /** The step of `ScanAppend` for a leading literal character. */
  lemma {:induction false} ScanAppendLiteral(a: string, b: string)
    requires a != [] && !StartsNumeral(a) && (b == [] || !IsDigit(b[0]))
    requires Scan(a[1..] + b) == Scan(a[1..]) + Scan(b)
    ensures Scan(a + b) == Scan(a) + Scan(b)
  {
    ScanLiteralThen(a, b);
    ConsAssoc(Lit(a[0]), Scan(a + b), Scan(a), Scan(a[1..]), Scan(b), Scan(a[1..] + b));
  }

  /** The leading numeral of `a` is also the first match of `a + b`. */
  lemma {:induction false} ScanNumeralThen(a: string, b: string)
    requires StartsNumeral(a) && (b == [] || !IsDigit(b[0]))
    ensures var t := Scan(a)[0].text;
      |t| <= |a| && Scan(a + b) == [Num(t)] + Scan(a[|t|..] + b)
  {
    ScanFirstNumeral(a);
    var t := Scan(a)[0].text;
    var rest := a[|t|..];
    assert a + b == t + (rest + b) by {
      assert a == a[..|t|] + rest;
    }
    assert rest + b == [] || !IsDigit((rest + b)[0]);
    ScanNumeral(t, rest + b);
  }

  /** A leading literal of `a` stays the first piece of `a` and of `a + b`. */
  lemma {:induction false} ScanLiteralThen(a: string, b: string)
    requires a != [] && !StartsNumeral(a) && (b == [] || !IsDigit(b[0]))
    ensures Scan(a) == [Lit(a[0])] + Scan(a[1..])
    ensures Scan(a + b) == [Lit(a[0])] + Scan(a[1..] + b)
  {
    assert a + b == [a[0]] + (a[1..] + b);
    ScanLiteral(a[0], a[1..] + b);
  }

  /** Re-association of a one-element prefix, stated over plain sequences so
      that the callers' scans stay folded. */
  lemma {:induction false} ConsAssoc<X>(p: X, whole: seq<X>, left: seq<X>, x: seq<X>, y: seq<X>, z: seq<X>)
    requires whole == [p] + z && left == [p] + x && z == x + y
    ensures whole == left + y
  {
    assert [p] + (x + y) == ([p] + x) + y;
  }

  /** A string that starts with a numeral: the first match is its longest
      leading numeral, so no digit follows it. */
  lemma {:induction false} ScanFirstNumeral(a: string)
    requires StartsNumeral(a)
    ensures var t := Scan(a)[0].text;
      Scan(a)[0].Num? && IsNumeral(t) && |t| <= |a| && a[..|t|] == t
      && (|t| == |a| || !IsDigit(a[|t|]))
      && Scan(a) == [Num(t)] + Scan(a[|t|..])
  {
    if a[0] == '-' && |a| > 1 && IsDigit(a[1]) {
      var n := 1 + DigitRun(a[1..]);
      assert n == |a| || a[n] == a[1..][n - 1];
    }
  }

  /** A line feed separates the scans of the lines on either side of it. */
  lemma {:induction false} ScanLines(a: string, b: string)
    ensures Scan(a + "\n" + b) == Scan(a) + [Lit('\n')] + Scan(b)
  {
    assert a + "\n" + b == a + ("\n" + b);
    ScanAppend(a, "\n" + b);
    assert "\n" + b == ['\n'] + b;
    ScanLiteral('\n', b);
  }

  /** Numerals of a concatenation of piece sequences. */
  lemma {:induction false} NumeralsAppend(ps: seq<Piece>, qs: seq<Piece>)
    requires WellFormed(ps) && WellFormed(qs)
    ensures WellFormed(ps + qs)
    ensures Matches(ps + qs) == Matches(ps) + Matches(qs)
  {
    if ps != [] {
      NumeralsAppend(ps[1..], qs);
      assert (ps + qs)[1..] == ps[1..] + qs;
    } else {
      assert ps + qs == qs;
    }
  }

  /** Replacing over concatenated pieces is replacing over each part with
      its own share of the replacements. */
  lemma {:induction false} SubstituteAppend(ps: seq<Piece>, qs: seq<Piece>, r1: seq<string>, r2: seq<string>)
    requires WellFormed(ps) && WellFormed(qs)
    requires |r1| == |Matches(ps)| && |r2| == |Matches(qs)|
    ensures WellFormed(ps + qs) && |r1 + r2| == |Matches(ps + qs)|
    ensures Substitute(ps + qs, r1 + r2) == Substitute(ps, r1) + Substitute(qs, r2)
  {
    NumeralsAppend(ps, qs);
    if ps == [] {
      assert ps + qs == qs && r1 + r2 == r2;
    } else {
      var tail := ps[1..];
      assert (ps + qs)[1..] == tail + qs;
      NumeralsAppend(tail, qs);
      if ps[0].Lit? {
        SubstituteAppend(tail, qs, r1, r2);
        ConcatAssoc([ps[0].c], Substitute(tail, r1), Substitute(qs, r2));
      } else {
        assert (r1 + r2)[0] == r1[0] && (r1 + r2)[1..] == r1[1..] + r2;
        SubstituteAppend(tail, qs, r1[1..], r2);
        ConcatAssoc(r1[0], Substitute(tail, r1[1..]), Substitute(qs, r2));
      }
    }
  }
}
