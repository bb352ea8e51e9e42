/**
  `sequence` (src/commands/sequence.ts and the unpadded copies in
  src/commands.ts and src/extension.ts): every numeral match is replaced by a
  running counter kept in the caller's `MultiSelectData`. The first match
  of an unseeded run seeds the counter with its own value; every later match,
  in this call or a later one sharing the object, takes the previous value
  plus one. The modern version also zero-pads to a width taken from the
  current string's zero-led numerals.
 */
module Sequence {
  import opened Wrappers
  import opened Text
  import opened Numerals
  import opened Types

  // ---------------------------------------------------------------------
  // Padding width
  // ---------------------------------------------------------------------

  /** What one match contributes to the padding width: its whole length
      (sign included) when it has more than one character and its first
      digit is `0`, and nothing otherwise. */
  function PadLen(t: string): nat
    requires IsNumeral(t)
  {
    var firstDigit := if t[0] == '-' then 1 else 0;
    if |t| > 1 && t[firstDigit] == '0' then |t| else 0
  }

  /** `maxLength`: the largest contribution over the matches, 0 when there is
      none (the source takes the maximum of an empty list, which is below
      every width and so disables padding just as 0 does). */
  function MaxLength(ns: seq<string>): (w: nat)
    requires forall k :: 0 <= k < |ns| ==> IsNumeral(ns[k])
    ensures forall k :: 0 <= k < |ns| ==> PadLen(ns[k]) <= w
    ensures w == 0 || exists k :: 0 <= k < |ns| && w == PadLen(ns[k])
  {
    if ns == [] then 0
    else
      var rest := MaxLength(ns[1..]);
      if PadLen(ns[0]) >= rest then PadLen(ns[0])
      else
        assert exists k :: 0 <= k < |ns[1..]| && rest == PadLen(ns[1..][k]);
        var k :| 0 <= k < |ns[1..]| && rest == PadLen(ns[1..][k]);
        assert rest == PadLen(ns[k + 1]);
        rest
  }

  /** The padding width of a string, from its own matches only. */
  function Width(s: string): nat {
    MaxLength(Matches(Scan(s)))
  }

  // ---------------------------------------------------------------------
  // Rendering one counter value
  // ---------------------------------------------------------------------

  /** The replacement text for counter value `v` at width `w`: plain decimal
      when `w` is 0; otherwise zero-padded to `w` characters, with the zeros
      placed after the minus sign of a negative value. */
  function Render(v: int, w: nat): string {
    if w > 0 then
      if v < 0 then "-" + PadStart(NatToString(-v), w - 1)
      else PadStart(NatToString(v), w)
    else IntToString(v)
  }

  /** Zero padding keeps a decimal rendering all digits and its value unchanged. */
  lemma {:induction false} PaddedDigits(n: nat, width: int)
    ensures AllDigits(PadStart(NatToString(n), width))
    ensures DigitsValue(PadStart(NatToString(n), width)) == n
  {
    var d := NatToString(n);
    var p := PadStart(d, width);
    PadStartShape(d, width);
    DigitsValueLeadingZeros(|p| - |d|, d);
    DigitsValueNatToString(n);
  }

  /** The replacement is a numeral that reads back as `v`. */
  lemma {:induction false} RenderValue(v: int, w: nat)
    ensures IsNumeral(Render(v, w)) && Value(Render(v, w)) == v
  {
    if w == 0 {
      ScanIntToString(v);
    } else if v < 0 {
      RenderValueNegative(v, w);
    } else {
      PaddedDigits(v, w);
    }
  }

  lemma {:induction false} RenderValueNegative(v: int, w: nat)
    requires w > 0 && v < 0
    ensures IsNumeral(Render(v, w)) && Value(Render(v, w)) == v
  {
    var p := PadStart(NatToString(-v), w - 1);
    PaddedDigits(-v, w - 1);
    PadStartShape(NatToString(-v), w - 1);
    assert Render(v, w) == "-" + p;
    NegatedNumeral(p);
  }

  /** A minus sign before a run of digits is a numeral worth minus the run. */
  lemma {:induction false} NegatedNumeral(p: string)
    requires |p| >= 1 && AllDigits(p)
    ensures IsNumeral("-" + p) && Value("-" + p) == -(DigitsValue(p) as int)
  {
    assert ("-" + p)[0] == '-' && ("-" + p)[1..] == p;
  }


  /** The replacement is the plain decimal when `w` is 0 and otherwise that
      decimal with zeros inserted after any minus sign, exactly `w` long
      unless the plain decimal is already longer: padding never truncates. */
  lemma {:induction false} RenderShape(v: int, w: nat)
    ensures w == 0 ==> Render(v, w) == IntToString(v)
    ensures |Render(v, w)| == if w > |IntToString(v)| then w else |IntToString(v)|
    ensures w > 0 && v >= 0 ==> Render(v, w) == Zeros(|Render(v, w)| - |IntToString(v)|) + IntToString(v)
    ensures w > 0 && v < 0 ==> Render(v, w) == "-" + Zeros(|Render(v, w)| - |IntToString(v)|) + NatToString(-v)
  {
    if w > 0 && v < 0 {
      RenderShapeNegative(v, w);
    } else if w > 0 {
      PadStartShape(NatToString(v), w);
    }
  }

  /** `RenderShape` for a negative value at a positive width. */
  lemma {:induction false} RenderShapeNegative(v: int, w: nat)
    requires w > 0 && v < 0
    ensures |Render(v, w)| == if w > |IntToString(v)| then w else |IntToString(v)|
    ensures Render(v, w) == "-" + Zeros(|Render(v, w)| - |IntToString(v)|) + NatToString(-v)
  {
    var d := NatToString(-v);
    var p := PadStart(d, w - 1);
    PadStartShape(d, w - 1);
    assert IntToString(v) == "-" + d;
    assert Render(v, w) == "-" + p;
    ConcatAssoc("-", Zeros(|p| - |d|), d);
  }

  // ---------------------------------------------------------------------
  // The replacement pass
  // ---------------------------------------------------------------------

  /** Rendering at width `w`, as the replacement function of one call. The
      pass and its lemmas are stated for any rendering, so that they do not
      depend on how a value is written out. */
  function Renderer(w: nat): int -> string {
    v => Render(v, w)
  }

  /** The counter value a match receives: its own value when the run is
      unseeded, the previous value plus one otherwise. */
  function NextOffset(offset: Option<int>, n: string): int
    requires IsNumeral(n)
  {
    if offset.None? then Value(n) else offset.value + 1
  }

  /** The specification of one call: the text `replace` builds over the
      scanned pieces, each match written out by `render`, paired with the
      offset the object holds afterwards. */
  function Pass(ps: seq<Piece>, offset: Option<int>, render: int -> string): (string, Option<int>)
    requires WellFormed(ps)
  {
    if ps == [] then ("", offset)
    else match ps[0]
      case Lit(c) =>
        var rest := Pass(ps[1..], offset, render);
        ([c] + rest.0, rest.1)
      case Num(t) =>
        var v := NextOffset(offset, t);
        var rest := Pass(ps[1..], Some(v), render);
        (render(v) + rest.0, rest.1)
  }

  /** `count` consecutive counter values from `start`, written out by `render`. */
  function Run(start: int, count: nat, render: int -> string): (rs: seq<string>)
    ensures |rs| == count
    decreases count
  {
    if count == 0 then [] else [render(start)] + Run(start + 1, count - 1, render)
  }

  /** The k-th entry of a run is the value `start + k`. */
  lemma {:induction false} RunAt(start: int, count: nat, render: int -> string, k: nat)
    requires k < count
    ensures Run(start, count, render)[k] == render(start + k)
    decreases k
  {
    var rest := Run(start + 1, count - 1, render);
    assert Run(start, count, render) == [render(start)] + rest;
    if k > 0 {
      RunAt(start + 1, count - 1, render, k - 1);
      assert (start + 1) + (k - 1) == start + k;
    }
  }

  /** The counter contract of one call. With no match the text and the
      offset are untouched. Otherwise the k-th match becomes `start + k`,
      where `start` is the first match's own value on an unseeded run and the
      old offset plus one on a seeded run, every other character is kept in
      place, and the offset ends at the last value emitted. */
  lemma {:induction false} PassCounts(ps: seq<Piece>, offset: Option<int>, render: int -> string)
    requires WellFormed(ps)
    ensures Matches(ps) == [] ==> Pass(ps, offset, render) == (Flatten(ps), offset)
    ensures Matches(ps) != [] ==>
      var count := |Matches(ps)|;
      var start := NextOffset(offset, Matches(ps)[0]);
      Pass(ps, offset, render) == (Substitute(ps, Run(start, count, render)), Some(start + count - 1))
  {
    if ps != [] {
      match ps[0]
      case Lit(c) =>
        PassCounts(ps[1..], offset, render);
        PassCountsLit(ps, offset, render);
      case Num(t) =>
        PassCounts(ps[1..], Some(NextOffset(offset, t)), render);
        PassCountsNum(ps, offset, render);
    }
  }

  /** What `PassCounts` states about one pass. */
  ghost predicate Counted(ps: seq<Piece>, offset: Option<int>, render: int -> string)
    requires WellFormed(ps)
  {
    && (Matches(ps) == [] ==> Pass(ps, offset, render) == (Flatten(ps), offset))
    && (Matches(ps) != [] ==>
      var count := |Matches(ps)|;
      var start := NextOffset(offset, Matches(ps)[0]);
      Pass(ps, offset, render) == (Substitute(ps, Run(start, count, render)), Some(start + count - 1)))
  }

  /** `PassCounts` for a text starting with a literal character, from the
      same statement about the rest. */
  lemma {:induction false} PassCountsLit(ps: seq<Piece>, offset: Option<int>, render: int -> string)
    requires WellFormed(ps) && ps != [] && ps[0].Lit?
    requires Counted(ps[1..], offset, render)
    ensures Counted(ps, offset, render)
  {
    var tail := ps[1..];
    var c := ps[0].c;
    PassStep(ps, offset, render);
    assert Matches(ps) == Matches(tail);
    assert Flatten(ps) == [c] + Flatten(tail);
    if Matches(tail) != [] {
      var reps := Run(NextOffset(offset, Matches(tail)[0]), |Matches(tail)|, render);
      assert Substitute(ps, reps) == [c] + Substitute(tail, reps);
    }
  }

  /** `PassCounts` for a text starting with a numeral, from the same
      statement about the rest at the numeral's value. */
  lemma {:induction false} PassCountsNum(ps: seq<Piece>, offset: Option<int>, render: int -> string)
    requires WellFormed(ps) && ps != [] && ps[0].Num?
    requires Counted(ps[1..], Some(NextOffset(offset, ps[0].text)), render)
    ensures Counted(ps, offset, render)
  {
    var tail := ps[1..];
    var t := ps[0].text;
    var v := NextOffset(offset, t);
    PassStep(ps, offset, render);
    assert Matches(ps) == [t] + Matches(tail);
    var reps := Run(v, |Matches(ps)|, render);
    assert Substitute(ps, reps) == reps[0] + Substitute(tail, reps[1..]);
    if Matches(tail) == [] {
      SubstituteIdentity(tail);
      assert reps[1..] == [];
    } else {
      assert reps[1..] == Run(v + 1, |Matches(tail)|, render);
    }
  }


  /** Two successive calls sharing the object continue one running count:
      the second call starts right after the last value of the first,
      whatever widths the two calls pad to. */
  lemma {:induction false} TwoCallsContinue(ps: seq<Piece>, qs: seq<Piece>, offset: Option<int>,
                         render1: int -> string, render2: int -> string)
    requires WellFormed(ps) && WellFormed(qs) && Matches(ps) != [] && Matches(qs) != []
    ensures var first := Pass(ps, offset, render1);
      var start := NextOffset(offset, Matches(ps)[0]);
      var n1 := |Matches(ps)|;
      var n2 := |Matches(qs)|;
      first.1 == Some(start + n1 - 1)
      && Pass(qs, first.1, render2) == (Substitute(qs, Run(start + n1, n2, render2)), Some(start + n1 + n2 - 1))
  {
    var start := NextOffset(offset, Matches(ps)[0]);
    var n1 := |Matches(ps)|;
    PassEnd(ps, offset, render1);
    PassCountsFrom(qs, Some(start + n1 - 1), render2, start + n1);
  }

  /** The offset a pass with matches leaves: its last value. */
  lemma {:induction false} PassEnd(ps: seq<Piece>, offset: Option<int>, render: int -> string)
    requires WellFormed(ps) && Matches(ps) != []
    ensures Pass(ps, offset, render).1 == Some(NextOffset(offset, Matches(ps)[0]) + |Matches(ps)| - 1)
  {
    PassCounts(ps, offset, render);
  }

  /** `PassCounts` for a non-empty match list, with the start value named. */
  lemma {:induction false} PassCountsFrom(ps: seq<Piece>, offset: Option<int>, render: int -> string, start: int)
    requires WellFormed(ps) && Matches(ps) != [] && start == NextOffset(offset, Matches(ps)[0])
    ensures Pass(ps, offset, render) == (Substitute(ps, Run(start, |Matches(ps)|, render)), Some(start + |Matches(ps)| - 1))
  {
    PassCounts(ps, offset, render);
  }

  /** One pass over two piece sequences is the pass over the first followed
      by the pass over the second from the offset the first leaves. */
  lemma {:induction false} PassAppend(ps: seq<Piece>, qs: seq<Piece>, offset: Option<int>, render: int -> string)
    requires WellFormed(ps) && WellFormed(qs)
    ensures WellFormed(ps + qs)
    ensures var first := Pass(ps, offset, render);
      var second := Pass(qs, first.1, render);
      Pass(ps + qs, offset, render) == (first.0 + second.0, second.1)
  {
    NumeralsAppend(ps, qs);
    if ps == [] {
      assert ps + qs == qs;
      assert "" + Pass(qs, offset, render).0 == Pass(qs, offset, render).0;
    } else {
      var next := if ps[0].Lit? then offset else Some(NextOffset(offset, ps[0].text));
      var out := if ps[0].Lit? then [ps[0].c] else render(next.value);
      ConcatTail(ps, qs);
      PassStep(ps, offset, render);
      PassStep(ps + qs, offset, render);
      PassAppend(ps[1..], qs, next, render);
      var rest := Pass(ps[1..], next, render);
      ConcatAssoc(out, rest.0, Pass(qs, rest.1, render).0);
    }
  }


  /** One step of the pass: the first piece's output, then the rest under
      the offset that piece leaves. */
  lemma {:induction false} PassStep(ps: seq<Piece>, offset: Option<int>, render: int -> string)
    requires WellFormed(ps) && ps != []
    ensures var next := if ps[0].Lit? then offset else Some(NextOffset(offset, ps[0].text));
      var out := if ps[0].Lit? then [ps[0].c] else render(next.value);
      Pass(ps, offset, render) == (out + Pass(ps[1..], next, render).0, Pass(ps[1..], next, render).1)
  {
  }

  /** The callback given to `replace`: advances the counter held by `data`
      for the match `n` and returns its rendering at width `maxLength`. */
  method ReplaceMatch(n: string, data: MultiSelectData, maxLength: nat) returns (out: string)
    requires IsNumeral(n)
    modifies data
    ensures data.offset == Some(NextOffset(old(data.offset), n))
    ensures out == Renderer(maxLength)(data.offset.value)
  {
    var isFirst := data.offset.None?;
    data.offset := if isFirst then Some(Value(n)) else Some(data.offset.value + 1);
    var sequenceValue := data.offset.value;
    if maxLength > 0 {
      if sequenceValue < 0 {
        out := "-" + PadStart(NatToString(-sequenceValue), maxLength - 1);
      } else {
        out := PadStart(NatToString(sequenceValue), maxLength);
      }
    } else {
      out := IntToString(sequenceValue);
    }
  }

  /** `str.replace(/-?\d+/g, callback)`: the scanned pieces of `str`, each
      match handed to the callback in order; `data.offset` is the counter it
      advances. */
  method ReplaceNumerals(str: string, data: MultiSelectData, w: nat) returns (r: string)
    modifies data
    ensures (r, data.offset) == Pass(Scan(str), old(data.offset), Renderer(w))
  {
    var rest := Scan(str);
    ghost var render := Renderer(w);
    ghost var total := Pass(rest, data.offset, render);
    r := "";
    assert r + total.0 == total.0;
    while rest != []
      invariant WellFormed(rest)
      invariant total == (r + Pass(rest, data.offset, render).0, Pass(rest, data.offset, render).1)
      decreases |rest|
    {
      ghost var before := data.offset;
      var out: string;
      match rest[0] {
        case Lit(c) =>
          out := [c];
        case Num(t) =>
          out := ReplaceMatch(t, data, w);
      }
      PassStep(rest, before, render);
      ConcatAssoc(r, out, Pass(rest[1..], data.offset, render).0);
      r := r + out;
      rest := rest[1..];
    }
    assert r + "" == r;
  }

  /** `sequence` of src/commands/sequence.ts: padded to the string's width. */
  method Sequence(str: string, data: MultiSelectData) returns (r: string)
    modifies data
    ensures (r, data.offset) == Pass(Scan(str), old(data.offset), Renderer(Width(str)))
  {
    var numbers := Matches(Scan(str));
    var maxLength := MaxLength(numbers);
    r := ReplaceNumerals(str, data, maxLength);
  }

  /** `sequence` of src/commands.ts and src/extension.ts: never pads. */
  method UnpaddedSequence(str: string, data: MultiSelectData) returns (r: string)
    modifies data
    ensures (r, data.offset) == Pass(Scan(str), old(data.offset), Renderer(0))
  {
    r := ReplaceNumerals(str, data, 0);
  }
}
