/**
  The transforms of src/commands/default-functions.ts that do more than
  forward to the string library: `prune`, and the wrappers `snake`,
  `screamingSnake` and `camelize` around the library's `underscored` and
  `camelize`. The library is not part of this model; its functions come in
  as a parameter.
 */
module DefaultFunctions {
  import opened Wrappers
  import opened Text

  /** The library functions a transform forwards to. `Capitalize(true)` is
      `capitalize(str, true)`, which the `sentence` command uses. */
  datatype Delegate =
    | Titleize | Classify | Clean | CleanDiacritics | Dasherize | Humanize
    | Reverse | Decapitalize | Capitalize(lowerRest: bool) | SwapCase
    | Underscored | Camelize | Chop | Truncate | Repeat
    | Slugify | TitleizeApStyle | TitleizeChicagoStyle | RandomCase
    | IncrementFloat | DecrementFloat | LowerCase

  /** A library call: the function, its numeric option when it takes one,
      and the text. `LowerCase` stands for `String.prototype.toLowerCase`,
      `RandomCase` for the random-driven case flipper, whose random source
      the caller fixes. */
  type Library = (Delegate, Option<int>, string) -> string

  // ---------------------------------------------------------------------
  // prune
  // ---------------------------------------------------------------------

  /** The end index `String.prototype.slice(0, end)` uses on a text of
      length `len`: a negative end counts back from the length and stops at
      0; an end past the text stops at its length. */
  function SliceEnd(len: nat, end: int): (k: nat)
    ensures k <= len
    ensures 0 <= end ==> k == if end < len then end else len
    ensures end < 0 ==> k == if len + end > 0 then len + end else 0
  {
    if end < 0 then (if len + end < 0 then 0 else len + end)
    else if end > len then len
    else end
  }

  /** `prune(n)(str)`: the first `n - 3` characters (in slice terms),
      trimmed, then `"..."`. */
  function Prune(n: int, str: string): string {
    Trim(str[..SliceEnd(|str|, n - 3)]) + "..."
  }

  /** The result always ends with `"..."` after a trimmed prefix of the
      input; for `n >= 3` it keeps at most `n - 3` characters of the input,
      so it is at most `n` long; for `n < 3` it keeps the input without its
      last `3 - n` characters. */
  lemma {:induction false} PruneShape(n: int, str: string)
    ensures var r := Prune(n, str);
      |r| >= 3 && r[|r| - 3..] == "..."
      && (n >= 3 ==> |r| <= n && r == Trim(str[..if n - 3 < |str| then n - 3 else |str|]) + "...")
      && (n < 3 ==> r == Trim(str[..if |str| > 3 - n then |str| - (3 - n) else 0]) + "...")
    ensures var t := Prune(n, str)[..|Prune(n, str)| - 3];
      t == [] || (!IsWhitespace(t[0]) && !IsWhitespace(t[|t| - 1]))
  {
    var r := Prune(n, str);
    assert r[..|r| - 3] == Trim(str[..SliceEnd(|str|, n - 3)]);
  }

  /** When the kept prefix has no whitespace at either end, `prune(n)`
      keeps exactly the first `n - 3` characters. */
  lemma {:induction false} PruneKeepsPrefix(n: int, str: string)
    requires 3 <= n && n - 3 <= |str|
    requires n == 3 || (!IsWhitespace(str[0]) && !IsWhitespace(str[n - 4]))
    ensures Prune(n, str) == str[..n - 3] + "..."
  {
    var p := str[..n - 3];
    assert SliceEnd(|str|, n - 3) == n - 3;
    TrimKeeps(p);
  }

  /** `prune(8)` keeps five characters of a text with no whitespace. */
  lemma {:induction false} PruneExample()
    ensures Prune(8, "aabbccddaabbccdd") == "aabbc..."
  {
    var s := "aabbccddaabbccdd";
    assert |s| == 16 && s[0] == 'a' && s[4] == 'c';
    PruneKeepsPrefix(8, s);
    assert s[..5] == "aabbc";
  }

  // ---------------------------------------------------------------------
  // snake, screamingSnake
  // ---------------------------------------------------------------------

  /** `.replace(/([A-Z])[^A-Z]/g, " $1")`: an uppercase letter followed by
      any character that is not one is replaced, together with that
      character, by a space and the letter. */
  function SpaceBeforeCapitals(s: string): (r: string)
    decreases |s|
  {
    if |s| >= 2 && IsAsciiUpper(s[0]) && !IsAsciiUpper(s[1]) then [' ', s[0]] + SpaceBeforeCapitals(s[2..])
    else if s == [] then []
    else [s[0]] + SpaceBeforeCapitals(s[1..])
  }

  /** The characters the class of the second replace keeps: ASCII letters,
      and digits too when `digits` (`[^a-z0-9]+` with the `i` flag rather
      than `[^a-z]+`). */
  predicate Kept(c: char, digits: bool) {
    IsAsciiLetter(c) || (digits && IsDigit(c))
  }

  /** `.replace(/[^a-z0-9]+/gi, " ")`: every maximal run of other characters
      becomes one space. */
  function CollapseOthers(s: string, digits: bool): string {
    if s == [] then []
    else if !Kept(s[0], digits) && |s| >= 2 && !Kept(s[1], digits) then CollapseOthers(s[1..], digits)
    else [if Kept(s[0], digits) then s[0] else ' '] + CollapseOthers(s[1..], digits)
  }

  /** The collapsed text holds only kept characters and spaces, never two
      spaces in a row, and starts with a space exactly when the input starts
      with a character outside the class. */
  lemma {:induction false} CollapseShape(s: string, digits: bool)
    ensures var r := CollapseOthers(s, digits);
      && (forall i :: 0 <= i < |r| ==> Kept(r[i], digits) || r[i] == ' ')
      && (forall i :: 0 <= i < |r| - 1 ==> !(r[i] == ' ' && r[i + 1] == ' '))
      && (s != [] ==> r != [] && (r[0] == ' ' <==> !Kept(s[0], digits)))
    decreases |s|
  {
    if s != [] {
      var rest := CollapseOthers(s[1..], digits);
      CollapseShape(s[1..], digits);
      if !(!Kept(s[0], digits) && |s| >= 2 && !Kept(s[1], digits)) {
        var x := if Kept(s[0], digits) then s[0] else ' ';
        var r := [x] + rest;
        assert !Kept(' ', digits);
        forall i | 0 <= i < |r| ensures Kept(r[i], digits) || r[i] == ' ' {
          if i > 0 { assert r[i] == rest[i - 1]; }
        }
        forall i | 0 <= i < |r| - 1 ensures !(r[i] == ' ' && r[i + 1] == ' ') {
          if i > 0 { assert r[i] == rest[i - 1]; }
          assert r[i + 1] == rest[i];
        }
      }
    }
  }

  /** One step of the collapse: a character outside the class followed by
      another is dropped; any other first character is kept, or becomes a
      space, in front of the collapsed rest. */
  lemma {:induction false} CollapseStep(s: string, digits: bool)
    requires s != []
    ensures !Kept(s[0], digits) && |s| >= 2 && !Kept(s[1], digits) ==>
      CollapseOthers(s, digits) == CollapseOthers(s[1..], digits)
    ensures !(!Kept(s[0], digits) && |s| >= 2 && !Kept(s[1], digits)) ==>
      CollapseOthers(s, digits) == [if Kept(s[0], digits) then s[0] else ' '] + CollapseOthers(s[1..], digits)
  {
  }

  /** A run of characters outside the class becomes a single space. */
  lemma {:induction false} CollapseRun(s: string, digits: bool)
    requires s != [] && forall i :: 0 <= i < |s| ==> !Kept(s[i], digits)
    ensures CollapseOthers(s, digits) == " "
    decreases |s|
  {
    if |s| >= 2 {
      CollapseRun(s[1..], digits);
    }
  }

  /** Characters of the class are kept as they are. */
  lemma {:induction false} CollapseKept(s: string, digits: bool)
    requires forall i :: 0 <= i < |s| ==> Kept(s[i], digits)
    ensures CollapseOthers(s, digits) == s
    decreases |s|
  {
    if s != [] {
      CollapseKept(s[1..], digits);
      assert s == [s[0]] + s[1..];
    }
  }

  /** Where a kept character stands on one side of a cut, no run spans it,
      so the two sides collapse independently. With `CollapseRun` and
      `CollapseKept` this fixes the result: kept characters in order, one
      space per maximal run of other characters. */
  lemma {:induction false} CollapseAppend(a: string, b: string, digits: bool)
    requires a == [] || b == [] || Kept(a[|a| - 1], digits) || Kept(b[0], digits)
    ensures CollapseOthers(a + b, digits) == CollapseOthers(a, digits) + CollapseOthers(b, digits)
    decreases |a|
  {
    if a == [] {
      assert a + b == b;
    } else {
      var tail := a[1..];
      assert (a + b)[1..] == tail + b;
      if tail != [] {
        assert (a + b)[1] == a[1] && a[|a| - 1] == tail[|tail| - 1];
      } else if b != [] {
        assert (a + b)[1] == b[0];
      }
      CollapseAppend(tail, b, digits);
      CollapseStep(a + b, digits);
      CollapseStep(a, digits);
      if !(!Kept(a[0], digits) && |a + b| >= 2 && !Kept((a + b)[1], digits)) {
        var x := if Kept(a[0], digits) then a[0] else ' ';
        ConcatAssoc([x], CollapseOthers(tail, digits), CollapseOthers(b, digits));
      }
    }
  }

  /** The characters of the class in `s`, in order. */
  function KeptPart(s: string, digits: bool): (r: string)
    ensures |r| <= |s|
  {
    if s == [] then [] else (if Kept(s[0], digits) then [s[0]] else []) + KeptPart(s[1..], digits)
  }

  /** Collapsing neither loses, adds nor reorders a character of the class. */
  lemma {:induction false} CollapseKeepsKept(s: string, digits: bool)
    ensures KeptPart(CollapseOthers(s, digits), digits) == KeptPart(s, digits)
    decreases |s|
  {
    if s != [] {
      CollapseKeepsKept(s[1..], digits);
      CollapseStep(s, digits);
      if !(!Kept(s[0], digits) && |s| >= 2 && !Kept(s[1], digits)) {
        var x := if Kept(s[0], digits) then s[0] else ' ';
        var r := [x] + CollapseOthers(s[1..], digits);
        assert r[0] == x && r[1..] == CollapseOthers(s[1..], digits);
        assert !Kept(' ', digits);
      }
    }
  }

  /** `.replace(/\s/gi, "_")`. */
  function Underscore(s: string): (r: string)
    ensures |r| == |s|
    ensures forall i :: 0 <= i < |s| ==> r[i] == if IsWhitespace(s[i]) then '_' else s[i]
  {
    if s == [] then [] else [if IsWhitespace(s[0]) then '_' else s[0]] + Underscore(s[1..])
  }

  /** `snake`: the library's `underscored`, then the four-step chain. */
  function Snake(lib: Library, str: string, digits: bool): string {
    Underscore(Trim(CollapseOthers(SpaceBeforeCapitals(lib(Underscored, None, str)), digits)))
  }

  /** `screamingSnake`: the upper case of `snake`. `toUpperCase` is exact
      here because `snake` yields ASCII only. */
  function ScreamingSnake(lib: Library, str: string, digits: bool): string {
    Upper(Snake(lib, str, digits))
  }

  function Upper(s: string): (r: string)
    ensures |r| == |s| && forall i :: 0 <= i < |s| ==> r[i] == ToUpperAscii(s[i])
  {
    if s == [] then [] else [ToUpperAscii(s[0])] + Upper(s[1..])
  }

  /** A snake-cased text is made of kept characters joined by single
      underscores, with none at either end, whatever the library returns. */
  predicate SnakeShaped(s: string, digits: bool) {
    (forall i :: 0 <= i < |s| ==> Kept(s[i], digits) || s[i] == '_')
    && (forall i :: 0 <= i < |s| - 1 ==> !(s[i] == '_' && s[i + 1] == '_'))
    && (s != [] ==> s[0] != '_' && s[|s| - 1] != '_')
  }

  /** The trim of a collapsed text keeps its shape and loses its edge spaces. */
  lemma {:induction false} TrimCollapsed(c: string, digits: bool)
    requires forall i :: 0 <= i < |c| ==> Kept(c[i], digits) || c[i] == ' '
    requires forall i :: 0 <= i < |c| - 1 ==> !(c[i] == ' ' && c[i + 1] == ' ')
    ensures var t := Trim(c);
      (forall i :: 0 <= i < |t| ==> Kept(t[i], digits) || t[i] == ' ')
      && (forall i :: 0 <= i < |t| - 1 ==> !(t[i] == ' ' && t[i + 1] == ' '))
      && (t != [] ==> t[0] != ' ' && t[|t| - 1] != ' ')
  {
    var t := Trim(c);
    var off := |c| - |TrimStart(c)|;
    var u := c[off..];
    assert t == u[..|t|] && off + |t| <= |c|;
    forall i | 0 <= i < |t|
      ensures t[i] == c[off + i] && (Kept(t[i], digits) || t[i] == ' ')
    {
      assert t[i] == u[i];
    }
    forall i | 0 <= i < |t| - 1
      ensures !(t[i] == ' ' && t[i + 1] == ' ')
    {
      assert t[i] == c[off + i] && t[i + 1] == c[off + i + 1];
    }
  }

  /** Turning the spaces of such a trimmed text into underscores gives the
      snake shape. */
  lemma {:induction false} UnderscoreShape(t: string, digits: bool)
    requires forall i :: 0 <= i < |t| ==> Kept(t[i], digits) || t[i] == ' '
    requires forall i :: 0 <= i < |t| - 1 ==> !(t[i] == ' ' && t[i + 1] == ' ')
    requires t != [] ==> t[0] != ' ' && t[|t| - 1] != ' '
    ensures SnakeShaped(Underscore(t), digits)
  {
    var r := Underscore(t);
    forall i | 0 <= i < |t| ensures (Kept(r[i], digits) || r[i] == '_') && (r[i] == '_' <==> t[i] == ' ') {
      SpaceOrKept(t[i], digits);
    }
  }

  /** The underscore step turns a space into `_` and keeps a kept character. */
  lemma {:induction false} SpaceOrKept(c: char, digits: bool)
    requires Kept(c, digits) || c == ' '
    ensures Underscore([c]) == [if c == ' ' then '_' else c]
    ensures Kept(c, digits) ==> c != '_'
  {
    assert Underscore([c])[0] == if IsWhitespace(c) then '_' else c;
  }

  lemma {:induction false} SnakeShape(lib: Library, str: string, digits: bool)
    ensures SnakeShaped(Snake(lib, str, digits), digits)
  {
    var c := CollapseOthers(SpaceBeforeCapitals(lib(Underscored, None, str)), digits);
    CollapseShape(SpaceBeforeCapitals(lib(Underscored, None, str)), digits);
    TrimCollapsed(c, digits);
    UnderscoreShape(Trim(c), digits);
  }

  /** `screamingSnake` is `snake` with every letter in upper case: same
      length, no lowercase letter, and equal to it up to case. */
  lemma {:induction false} ScreamingSnakeShape(lib: Library, str: string, digits: bool)
    ensures var snake := Snake(lib, str, digits);
      var screaming := ScreamingSnake(lib, str, digits);
      |screaming| == |snake|
      && (forall i :: 0 <= i < |snake| ==> !IsAsciiLower(screaming[i]))
      && (forall i :: 0 <= i < |snake| ==> ToLowerAscii(screaming[i]) == ToLowerAscii(snake[i]))
      && SnakeShaped(screaming, digits)
  {
    SnakeShape(lib, str, digits);
    UpperShape(Snake(lib, str, digits), digits);
  }

  /** Upper-casing a snake-shaped text keeps its shape, leaves no lowercase
      letter and changes nothing but case. */
  lemma {:induction false} UpperShape(s: string, digits: bool)
    requires SnakeShaped(s, digits)
    ensures var u := Upper(s);
      |u| == |s|
      && (forall i :: 0 <= i < |s| ==> !IsAsciiLower(u[i]))
      && (forall i :: 0 <= i < |s| ==> ToLowerAscii(u[i]) == ToLowerAscii(s[i]))
      && SnakeShaped(u, digits)
  {
    var u := Upper(s);
    forall i | 0 <= i < |s| ensures ToLowerAscii(u[i]) == ToLowerAscii(s[i]) {
      CaseRoundTrip(s[i]);
    }
  }


  lemma {:induction false} CaseRoundTrip(c: char)
    ensures ToLowerAscii(ToUpperAscii(c)) == ToLowerAscii(c)
  {
  }

  // ---------------------------------------------------------------------
  // camelize
  // ---------------------------------------------------------------------

  /** `/[a-z]/.test(str)`. */
  predicate HasLower(s: string) {
    exists i :: 0 <= i < |s| && IsAsciiLower(s[i])
  }

  /** `camelize`: the library's `camelize`, given the text itself when it
      holds a lowercase ASCII letter and its lower case otherwise, so an
      all-caps identifier is not read as one word per letter. */
  function CamelizeText(lib: Library, str: string): (r: string)
    ensures HasLower(str) ==> r == lib(Delegate.Camelize, None, str)
    ensures !HasLower(str) ==> r == lib(Delegate.Camelize, None, lib(LowerCase, None, str))
  {
    lib(Delegate.Camelize, None, if HasLower(str) then str else lib(LowerCase, None, str))
  }
}
