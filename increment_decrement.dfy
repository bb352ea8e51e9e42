/**
  `increment`, `decrement` and the helpers that duplicate a selection and
  move the selection onto the appended copy (src/commands/increment-decrement.ts).
 */
module IncrementDecrement {
  import opened Text
  import opened Numerals
  import opened Host

  /** The replacement of every numeral by the plain decimal of its value plus `delta`. */
  function Shifted(ns: seq<string>, delta: int): (rs: seq<string>)
    requires forall k :: 0 <= k < |ns| ==> IsNumeral(ns[k])
    ensures |rs| == |ns|
  {
    seq(|ns|, k requires 0 <= k < |ns| => IntToString(Value(ns[k]) + delta))
  }

  /** `str.replace(/-?\d+/g, n => String(Number(n) + delta))`. */
  function Shift(s: string, delta: int): string {
    Substitute(Scan(s), Shifted(Matches(Scan(s)), delta))
  }

  function Increment(s: string): string { Shift(s, 1) }

  function Decrement(s: string): string { Shift(s, -1) }

  /** Text without an ASCII digit holds no numeral and is returned unchanged. */
  lemma {:induction false} ShiftNoDigit(s: string, delta: int)
    requires forall i :: 0 <= i < |s| ==> !IsDigit(s[i])
    ensures Shift(s, delta) == s
    ensures Increment(s) == s && Decrement(s) == s
  {
    CountZeroIffNoDigit(s);
    NoNumeralsIdentity(s);
  }

  /** Shifting is done match by match: cut the text where no digit follows,
      and each part is shifted on its own. */
  lemma {:induction false} ShiftAppend(a: string, b: string, delta: int)
    requires b == [] || !IsDigit(b[0])
    ensures Shift(a + b, delta) == Shift(a, delta) + Shift(b, delta)
  {
    var ps, qs := Scan(a), Scan(b);
    ScanAppend(a, b);
    NumeralsAppend(ps, qs);
    ShiftedAppend(Matches(ps), Matches(qs), delta);
    SubstituteAppend(ps, qs, Shifted(Matches(ps), delta), Shifted(Matches(qs), delta));
  }

  /** The replacements of two lists of numerals are those of each list. */
  lemma {:induction false} ShiftedAppend(ns: seq<string>, ms: seq<string>, delta: int)
    requires forall k :: 0 <= k < |ns| ==> IsNumeral(ns[k])
    requires forall k :: 0 <= k < |ms| ==> IsNumeral(ms[k])
    ensures forall k :: 0 <= k < |ns + ms| ==> IsNumeral((ns + ms)[k])
    ensures Shifted(ns + ms, delta) == Shifted(ns, delta) + Shifted(ms, delta)
  {
    var all := ns + ms;
    forall k | 0 <= k < |all| ensures IsNumeral(all[k]) {
      if k >= |ns| { assert all[k] == ms[k - |ns|]; }
    }
    var l, r1, r2 := Shifted(all, delta), Shifted(ns, delta), Shifted(ms, delta);
    forall k | 0 <= k < |l| ensures l[k] == (r1 + r2)[k] {
      if k >= |ns| { assert all[k] == ms[k - |ns|]; }
    }
  }

  /** A character that is neither a digit nor a minus sign is kept, and the
      rest is shifted as it would be alone. */
  lemma {:induction false} ShiftLiteral(c: char, s: string, delta: int)
    requires !IsDigit(c) && c != '-'
    ensures Shift([c] + s, delta) == [c] + Shift(s, delta)
  {
    var qs := Scan(s);
    ScanLiteral(c, s);
    var ps := [Lit(c)] + qs;
    assert ps[1..] == qs;
    assert Matches(ps) == Matches(qs);
  }

  /** Over several lines every line is shifted on its own: a line feed ends
      each line's last number and is kept. */
  lemma {:induction false} ShiftLines(a: string, b: string, delta: int)
    ensures Shift(a + "\n" + b, delta) == Shift(a, delta) + "\n" + Shift(b, delta)
  {
    var nl := "\n";
    ShiftLiteral('\n', b, delta);
    assert nl + b == ['\n'] + b && (nl + b)[0] == '\n';
    ShiftAppend(a, nl + b, delta);
    ConcatAssoc(a, nl, b);
    ConcatAssoc(Shift(a, delta), nl, Shift(b, delta));
  }

  /** A canonical number followed by text that does not continue it: the
      number is shifted and the rest is shifted on its own. */
  lemma {:induction false} ShiftNumberThen(v: int, s: string, delta: int)
    requires s == [] || !IsDigit(s[0])
    ensures Shift(IntToString(v) + s, delta) == IntToString(v + delta) + Shift(s, delta)
  {
    ShiftAppend(IntToString(v), s, delta);
    ShiftIntToString(v, delta);
  }

  /** Shifting the canonical rendering of an integer renders the shifted value. */
  lemma {:induction false} ShiftIntToString(v: int, delta: int)
    ensures Shift(IntToString(v), delta) == IntToString(v + delta)
  {
    var t := IntToString(v);
    ScanIntToString(v);
    var ps := Scan(t);
    assert ps[1..] == [];
    assert Matches(ps) == [t];
    var reps := Shifted([t], delta);
    assert reps[0] == IntToString(v + delta);
    assert Substitute(ps, reps) == reps[0] + Substitute([], reps[1..]);
  }

  /** On the canonical rendering of an integer, increment and decrement
      step its value and undo each other. */
  lemma {:induction false} ShiftCanonical(v: int)
    ensures Increment(IntToString(v)) == IntToString(v + 1)
    ensures Decrement(IntToString(v)) == IntToString(v - 1)
    ensures Decrement(Increment(IntToString(v))) == IntToString(v)
    ensures Increment(Decrement(IntToString(v))) == IntToString(v)
  {
    ShiftIntToString(v, 1);
    ShiftIntToString(v, -1);
    ShiftIntToString(v + 1, -1);
    ShiftIntToString(v - 1, 1);
  }

  /** Zero padding is not kept: `009` becomes `10`. */
  lemma {:induction false} IncrementDropsPadding()
    ensures Increment("009") == "10"
  {
    ScanNumeral("009", "");
    assert "009" + "" == "009";
    assert Matches(Scan("009")) == ["009"];
    assert Zeros(2) + "9" == "009";
    DigitsValueLeadingZeros(2, "9");
    assert Value("009") == 9;
  }

  /** A minus sign directly before digits belongs to the number: `a-4` becomes `a-3`. */
  lemma {:induction false} IncrementNegative()
    ensures Increment("a-4") == "a-3"
  {
    ScanNumeral("-4", "");
    assert "-4" + "" == "-4";
    ScanLiteral('a', "-4");
    assert ['a'] + "-4" == "a-4";
    var ps := Scan("a-4");
    assert ps == [Lit('a'), Num("-4")];
    assert Matches(ps) == ["-4"];
    assert Value("-4") == -4;
    var reps := Shifted(["-4"], 1);
    assert reps[0] == IntToString(-3) == "-" + NatToString(3) == "-3";
    assert Substitute(ps, reps) == ['a'] + Substitute(ps[1..], reps);
  }

  // ---------------------------------------------------------------------
  // Duplicate helpers
  // ---------------------------------------------------------------------

  /** One entry of the `selectionMap` object: a selection and its replacement. */
  datatype MapEntry = MapEntry(selection: Selection, replaced: string)

  /** `handleDuplicateAndIncrementDecrement`: every selection's text is
      followed by `operation` of itself; the entries are keyed by index. */
  method HandleDuplicateAndIncrementDecrement(editor: Editor, selections: seq<Selection>, operation: string -> string)
    returns (selectionMap: map<nat, MapEntry>, replacedSelections: seq<string>)
    requires editor.Valid() && selections == editor.selections
    ensures |replacedSelections| == |selections|
    ensures forall i :: 0 <= i < |selections| ==>
      replacedSelections[i] == editor.document[i] + operation(editor.document[i])
    ensures forall i: nat :: i in selectionMap <==> i < |selections|
    ensures forall i :: 0 <= i < |selections| ==>
      selectionMap[i] == MapEntry(selections[i], replacedSelections[i])
  {
    selectionMap := map[];
    replacedSelections := [];
    var index := 0;
    while index < |selections|
      invariant 0 <= index <= |selections|
      invariant |replacedSelections| == index
      invariant forall i :: 0 <= i < index ==>
        replacedSelections[i] == editor.document[i] + operation(editor.document[i])
      invariant forall i: nat :: i in selectionMap <==> i < index
      invariant forall i :: 0 <= i < index ==>
        selectionMap[i] == MapEntry(selections[i], replacedSelections[i])
    {
      var text := editor.document[index];
      var replaced := text + operation(text);
      replacedSelections := replacedSelections + [replaced];
      selectionMap := selectionMap[index := MapEntry(selections[index], replaced)];
      index := index + 1;
    }
  }

  /** Where typing `text` at `p` leaves the cursor: a line feed moves to the
      start of the next line, any other character one column to the right. */
  function Advance(p: Position, text: string): Position
    decreases |text|
  {
    if text == [] then p
    else if text[0] == '\n' then Advance(Position(p.line + 1, 0), text[1..])
    else Advance(Position(p.line, p.character + 1), text[1..])
  }

  /** The selection placed over a duplicate of `originalText` appended at the
      end of `original`: it starts at that end and spans the line count and
      last-line length of `originalText`. */
  function AfterDuplicate(original: Selection, originalText: string): Selection {
    var startPos := original.end;
    var lines := Split(originalText);
    if |lines| > 1 then
      Selection(startPos, Position(startPos.line + |lines| - 1, |lines[|lines| - 1]|))
    else
      Selection(startPos, Position(startPos.line, startPos.character + |originalText|))
  }

  /** `updateSelectionsAfterDuplicate`, given each original selection's text:
      one selection per editor selection, each over a copy of the original
      text placed right after the original selection. */
  function UpdateSelectionsAfterDuplicate(count: nat, selectionMap: map<nat, MapEntry>, originalTexts: seq<string>): (r: seq<Selection>)
    requires forall i: nat :: i < count ==> i in selectionMap
    requires |originalTexts| == count
    ensures |r| == count
    ensures forall i :: 0 <= i < count ==>
      r[i].start == selectionMap[i].selection.end && r[i].end == Advance(r[i].start, originalTexts[i])
  {
    forall p: Position, text: string ensures AfterDuplicate(Selection(p, p), text).end == Advance(p, text) {
      AdvanceLines(p, text);
    }
    seq(count, i requires 0 <= i < count => AfterDuplicate(selectionMap[i].selection, originalTexts[i]))
  }

  /** Typing a text moves down one line per line feed; the column is then the
      length of the last line, or moves right by the whole text when there is
      no line feed. */
  lemma {:induction false} AdvanceLines(p: Position, text: string)
    ensures var lines := Split(text);
      Advance(p, text) ==
        if |lines| > 1 then Position(p.line + |lines| - 1, |lines[|lines| - 1]|)
        else Position(p.line, p.character + |text|)
    decreases |text|
  {
    if text != [] {
      var rest := Split(text[1..]);
      if text[0] == '\n' {
        AdvanceLines(Position(p.line + 1, 0), text[1..]);
        if |rest| == 1 { JoinSplit(text[1..]); }
      } else {
        AdvanceLines(Position(p.line, p.character + 1), text[1..]);
      }
    }
  }

  /** The selection spans the ORIGINAL text's shape, so when incrementing
      lengthens a number it covers only part of the appended copy:
      duplicating "9" appends "10" but selects only its first character. */
  lemma {:induction false} DuplicateSelectionUsesOriginalLength()
    ensures var original := Selection(Position(0, 0), Position(0, 1));
      var copy := Increment("9");
      copy == "10" && AfterDuplicate(original, "9").end == Position(0, 2)
      && Advance(original.end, copy) == Position(0, 3)
  {
    ShiftIntToString(9, 1);
    assert IntToString(9) == "9" && IntToString(10) == "10";
  }
}
