/**
  `swapQuotes` (src/commands/swap_quotes.ts): a string quoted with `'` or
  `"` at both ends is re-quoted with the other character, and every quote
  inside is swapped too, except an apostrophe (a `'` with ASCII letters
  directly on both sides), which is escaped as `\'` when the new outer quote
  is `'` and kept as it is otherwise. Anything else is returned unchanged.
 */
module SwapQuotes {
  import opened Text

  predicate IsQuote(c: char) { c == '\'' || c == '"' }

  /** The other quote character; any other character is kept. */
  function SwapChar(c: char): (d: char)
    ensures IsQuote(c) <==> IsQuote(d)
    ensures IsQuote(c) ==> d != c
    ensures !IsQuote(c) ==> d == c
  {
    if c == '\'' then '"' else if c == '"' then '\'' else c
  }

  /** `content[i]` is an apostrophe: a `'` whose neighbours in the original
      inner content are both ASCII letters. A missing neighbour is no letter,
      so a quote at either end of the content never is one. */
  predicate IsApostrophe(content: string, i: int)
    requires 0 <= i < |content|
    ensures IsApostrophe(content, i) ==> 0 < i < |content| - 1 && content[i] == '\''
  {
    content[i] == '\''
    && i > 0 && IsAsciiLetter(content[i - 1])
    && i + 1 < |content| && IsAsciiLetter(content[i + 1])
  }

  /** What the replace callback returns for the character at `i` (a
      non-quote is not matched and stays). */
  function ReplaceAt(content: string, i: int, originalQuote: char, newQuote: char): string
    requires 0 <= i < |content|
  {
    var m := content[i];
    if !IsQuote(m) then [m]
    else if IsApostrophe(content, i) then
      if newQuote == '\'' then "\\'" else [m]
    else [if m == originalQuote then newQuote else originalQuote]
  }

  /** `content.replace(/['"]/g, ...)` from position `i` on; every decision
      reads the unmodified `content`. */
  function SwapFrom(content: string, i: int, originalQuote: char, newQuote: char): string
    requires 0 <= i <= |content|
    decreases |content| - i
  {
    if i == |content| then ""
    else ReplaceAt(content, i, originalQuote, newQuote) + SwapFrom(content, i + 1, originalQuote, newQuote)
  }

  /** Quoted at both ends with the same quote character. */
  predicate Quoted(s: string) {
    |s| >= 2 && IsQuote(s[0]) && s[0] == s[|s| - 1]
  }

  function Inner(s: string): string
    requires |s| >= 2
  {
    s[1..|s| - 1]
  }

  /** `swapQuotes`. */
  function SwapQuotes(str: string): (r: string)
    ensures !Quoted(str) ==> r == str
    ensures Quoted(str) ==> |r| >= 2 && r[0] == r[|r| - 1] == SwapChar(str[0]) && Quoted(r)
  {
    if |str| < 2 then str
    else
      var firstChar := str[0];
      var lastChar := str[|str| - 1];
      if (firstChar != '\'' && firstChar != '"') || firstChar != lastChar then str
      else
        var originalQuote := firstChar;
        var newQuote := if originalQuote == '\'' then '"' else '\'';
        var content := str[1..|str| - 1];
        [newQuote] + SwapFrom(content, 0, originalQuote, newQuote) + [newQuote]
  }

  /** Number of apostrophes at or after position `i`. */
  function ApostrophesFrom(content: string, i: int): nat
    requires 0 <= i <= |content|
    decreases |content| - i
  {
    if i == |content| then 0
    else (if IsApostrophe(content, i) then 1 else 0) + ApostrophesFrom(content, i + 1)
  }

  /** Re-quoting with `"` (from `'`) maps each inner character to exactly one
      character: an apostrophe stays, every other quote is swapped, every
      other character is kept. */
  lemma {:induction false} SwapFromToDouble(content: string, i: int)
    requires 0 <= i <= |content|
    ensures |SwapFrom(content, i, '\'', '"')| == |content| - i
    ensures forall k :: i <= k < |content| ==>
      SwapFrom(content, i, '\'', '"')[k - i] == if IsApostrophe(content, k) then '\'' else SwapChar(content[k])
    decreases |content| - i
  {
    if i < |content| {
      SwapFromToDouble(content, i + 1);
    }
  }

  /** Re-quoting with `'` (from `"`) escapes each apostrophe into two
      characters and maps every other inner character to one. */
  lemma {:induction false} SwapFromToSingleLength(content: string, i: int)
    requires 0 <= i <= |content|
    ensures |SwapFrom(content, i, '"', '\'')| == |content| - i + ApostrophesFrom(content, i)
    decreases |content| - i
  {
    if i < |content| {
      SwapFromToSingleLength(content, i + 1);
    }
  }

  /** What inner character `k` becomes at position `p` of the output when
      re-quoting with `'`: an apostrophe is escaped as `\'`, every other
      character is swapped if it is a quote and kept otherwise. */
  predicate SingleAt(r: string, p: int, content: string, k: int)
    requires 0 <= k < |content|
  {
    if IsApostrophe(content, k) then 0 <= p && p + 2 <= |r| && r[p..p + 2] == "\\'"
    else 0 <= p < |r| && r[p] == SwapChar(content[k])
  }

  /** Re-quoting with `'` (from `"`), character by character: inner
      character `k` lands at its own place shifted by the apostrophes
      before it, escaped if it is an apostrophe and swapped otherwise. */
  lemma {:induction false} SwapFromToSingle(content: string, i: int)
    requires 0 <= i <= |content|
    ensures forall k :: i <= k < |content| ==>
      SingleAt(SwapFrom(content, i, '"', '\''), k - i + ApostrophesFrom(content, i) - ApostrophesFrom(content, k), content, k)
    decreases |content| - i
  {
    if i < |content| {
      var r := SwapFrom(content, i, '"', '\'');
      var head := ReplaceAt(content, i, '"', '\'');
      var rest := SwapFrom(content, i + 1, '"', '\'');
      assert r == head + rest;
      SwapFromToSingle(content, i + 1);
      ApostrophesTail(content, i);
      SingleAtHead(head, rest, content, i);
      forall k | i < k < |content|
        ensures SingleAt(r, k - i + ApostrophesFrom(content, i) - ApostrophesFrom(content, k), content, k)
      {
        var q := k - (i + 1) + ApostrophesFrom(content, i + 1) - ApostrophesFrom(content, k);
        SingleAtShift(head, rest, q, content, k);
      }
    }
  }

  /** The replacement of character `i` stands at the front. */
  lemma {:induction false} SingleAtHead(head: string, rest: string, content: string, i: int)
    requires 0 <= i < |content|
    requires |head| == (if IsApostrophe(content, i) then 2 else 1)
    requires IsApostrophe(content, i) ==> head == "\\'"
    requires !IsApostrophe(content, i) ==> head[0] == SwapChar(content[i])
    ensures SingleAt(head + rest, 0, content, i)
  {
    if IsApostrophe(content, i) {
      assert (head + rest)[0..2] == head;
    } else {
      assert (head + rest)[0] == head[0];
    }
  }

  /** A statement about the rest of the output holds, moved by the length
      of what comes before it. */
  lemma {:induction false} SingleAtShift(head: string, rest: string, q: int, content: string, k: int)
    requires 0 <= k < |content|
    requires SingleAt(rest, q, content, k)
    ensures SingleAt(head + rest, |head| + q, content, k)
  {
    var r := head + rest;
    var p := |head| + q;
    if IsApostrophe(content, k) {
      assert r[p..p + 2] == rest[q..q + 2];
    } else {
      assert r[p] == rest[q];
    }
  }

  /** The apostrophes from `i` on are those from `i + 1` on, plus one if
      `i` is one; and the replacement at `i` is two characters exactly then. */
  lemma {:induction false} ApostrophesTail(content: string, i: int)
    requires 0 <= i < |content|
    ensures ApostrophesFrom(content, i) ==
      (if IsApostrophe(content, i) then 1 else 0) + ApostrophesFrom(content, i + 1)
    ensures ApostrophesFrom(content, i + 1) <= |content| - (i + 1)
    ensures var head := ReplaceAt(content, i, '"', '\'');
      |head| == (if IsApostrophe(content, i) then 2 else 1)
      && (IsApostrophe(content, i) ==> head == "\\'")
      && (!IsApostrophe(content, i) ==> head[0] == SwapChar(content[i]))
  {
    ApostrophesBound(content, i + 1);
  }

  /** There are no more apostrophes than characters. */
  lemma {:induction false} ApostrophesBound(content: string, i: int)
    requires 0 <= i <= |content|
    ensures ApostrophesFrom(content, i) <= |content| - i
    decreases |content| - i
  {
    if i < |content| {
      ApostrophesBound(content, i + 1);
    }
  }

  /** `"`-quoted input: the result is `'`-quoted, each apostrophe of the
      content becomes `\'` and every other inner character is swapped if it
      is a quote and kept otherwise, in order. */
  lemma {:induction false} SwapQuotesFromDouble(str: string)
    requires Quoted(str) && str[0] == '"'
    ensures var r := SwapQuotes(str);
      && |r| == |str| + ApostrophesFrom(Inner(str), 0)
      && r[0] == '\'' && r[|r| - 1] == '\''
    ensures forall k :: 0 <= k < |Inner(str)| ==>
      SingleAt(SwapQuotes(str), 1 + k + ApostrophesFrom(Inner(str), 0) - ApostrophesFrom(Inner(str), k), Inner(str), k)
  {
    var content := Inner(str);
    SwapQuotesQuoted(str);
    SwapQuotesLength(str);
    RequotedSingle(content, SwapQuotes(str));
  }

  /** The content re-quoted with `'` between two `'`: inner character `k`
      is found one place further on than in the bare replacement. */
  lemma {:induction false} RequotedSingle(content: string, r: string)
    requires r == ['\''] + SwapFrom(content, 0, '"', '\'') + ['\'']
    ensures forall k :: 0 <= k < |content| ==>
      SingleAt(r, 1 + k + ApostrophesFrom(content, 0) - ApostrophesFrom(content, k), content, k)
  {
    var s := SwapFrom(content, 0, '"', '\'');
    SwapFromToSingle(content, 0);
    forall k | 0 <= k < |content|
      ensures SingleAt(r, 1 + k + ApostrophesFrom(content, 0) - ApostrophesFrom(content, k), content, k)
    {
      SingleAtEnclosed(s, k + ApostrophesFrom(content, 0) - ApostrophesFrom(content, k), content, k);
    }
  }

  /** Enclosing the output in `'` moves every position one place on. */
  lemma {:induction false} SingleAtEnclosed(s: string, q: int, content: string, k: int)
    requires 0 <= k < |content|
    requires SingleAt(s, q, content, k)
    ensures SingleAt(['\''] + s + ['\''], 1 + q, content, k)
  {
    SingleAtTail(s, ['\''], q, content, k);
    SingleAtShift(['\''], s + ['\''], q, content, k);
    assert ['\''] + s + ['\''] == ['\''] + (s + ['\'']);
  }

  /** A statement about the front of the output survives what is appended. */
  lemma {:induction false} SingleAtTail(r: string, tail: string, p: int, content: string, k: int)
    requires 0 <= k < |content|
    requires SingleAt(r, p, content, k)
    ensures SingleAt(r + tail, p, content, k)
  {
    if IsApostrophe(content, k) {
      assert (r + tail)[p..p + 2] == r[p..p + 2];
    } else {
      assert (r + tail)[p] == r[p];
    }
  }

  /** Where no inner quote has letters on both sides, either direction just
      swaps every quote character and keeps everything else. */
  lemma {:induction false} SwapFromPlain(content: string, i: int, originalQuote: char)
    requires 0 <= i <= |content| && IsQuote(originalQuote)
    requires NoFlankedQuote(content)
    ensures |SwapFrom(content, i, originalQuote, SwapChar(originalQuote))| == |content| - i
    ensures forall k :: i <= k < |content| ==>
      SwapFrom(content, i, originalQuote, SwapChar(originalQuote))[k - i] == SwapChar(content[k])
    decreases |content| - i
  {
    if i < |content| {
      SwapFromPlain(content, i + 1, originalQuote);
      if IsQuote(content[i]) {
        assert !IsApostrophe(content, i) by {
          assert !Flanked(content, i);
        }
      }
    }
  }

  /** The quote at `i` has ASCII letters directly on both sides. */
  predicate Flanked(content: string, i: int)
    requires 0 <= i < |content|
  {
    0 < i < |content| - 1 && IsAsciiLetter(content[i - 1]) && IsAsciiLetter(content[i + 1])
  }

  predicate NoFlankedQuote(content: string) {
    forall i :: 0 <= i < |content| && IsQuote(content[i]) ==> !Flanked(content, i)
  }

  /** Output length: unchanged for `'`-quoted input, one more per apostrophe
      for `"`-quoted input, unchanged for input left alone. */
  lemma {:induction false} SwapQuotesLength(str: string)
    ensures Quoted(str) && str[0] == '"' ==> |SwapQuotes(str)| == |str| + ApostrophesFrom(Inner(str), 0)
    ensures !(Quoted(str) && str[0] == '"') ==> |SwapQuotes(str)| == |str|
  {
    if Quoted(str) {
      if str[0] == '"' {
        SwapFromToSingleLength(Inner(str), 0);
      } else {
        SwapFromToDouble(Inner(str), 0);
      }
    }
  }

  /** `'`-quoted input: the inner characters keep their places; apostrophes
      stay and every other quote is swapped. */
  lemma {:induction false} SwapQuotesFromSingle(str: string)
    requires Quoted(str) && str[0] == '\''
    ensures |SwapQuotes(str)| == |str|
    ensures SwapQuotes(str)[0] == '"' && SwapQuotes(str)[|str| - 1] == '"'
    ensures forall k :: 0 <= k < |str| - 2 ==>
      SwapQuotes(str)[k + 1] == if IsApostrophe(Inner(str), k) then '\'' else SwapChar(Inner(str)[k])
  {
    SwapFromToDouble(Inner(str), 0);
  }

  /** A character-wise quote swap of a content with no flanked quote has no
      flanked quote either: letters stay letters and quotes stay quotes. */
  lemma {:induction false} SwapKeepsNoFlanked(content: string, swapped: string)
    requires NoFlankedQuote(content) && |swapped| == |content|
    requires forall k :: 0 <= k < |content| ==> swapped[k] == SwapChar(content[k])
    ensures NoFlankedQuote(swapped)
  {
    forall i | 0 <= i < |swapped| && IsQuote(swapped[i])
      ensures !Flanked(swapped, i)
    {
      assert IsQuote(content[i]) && !Flanked(content, i);
      if 0 < i < |swapped| - 1 {
        assert swapped[i - 1] == SwapChar(content[i - 1]);
        assert swapped[i + 1] == SwapChar(content[i + 1]);
      }
    }
  }

  /** On quoted input the result is the other quote, the swapped content
      and the other quote again. */
  lemma {:induction false} SwapQuotesQuoted(str: string)
    requires Quoted(str)
    ensures SwapQuotes(str) == [SwapChar(str[0])] + SwapFrom(Inner(str), 0, str[0], SwapChar(str[0])) + [SwapChar(str[0])]
  {
  }

  /** Without flanked quotes, swapping the content one way and then back is
      the identity. */
  lemma {:induction false} PlainTwice(content: string, q: char)
    requires IsQuote(q) && NoFlankedQuote(content)
    ensures SwapFrom(SwapFrom(content, 0, q, SwapChar(q)), 0, SwapChar(q), q) == content
  {
    SwapFromPlain(content, 0, q);
    var swapped := SwapFrom(content, 0, q, SwapChar(q));
    SwapKeepsNoFlanked(content, swapped);
    SwapFromPlain(swapped, 0, SwapChar(q));
    assert SwapChar(SwapChar(q)) == q;
    var back := SwapFrom(swapped, 0, SwapChar(q), q);
    assert |back| == |content|;
    forall k | 0 <= k < |content|
      ensures back[k] == content[k]
    {
      assert back[k - 0] == SwapChar(swapped[k]);
      assert swapped[k - 0] == SwapChar(content[k]);
    }
  }

  /** Swapping twice gives the input back when no inner quote has ASCII
      letters on both sides. */
  lemma {:induction false} SwapQuotesInvolution(str: string)
    requires |str| >= 2 ==> NoFlankedQuote(Inner(str))
    ensures SwapQuotes(SwapQuotes(str)) == str
  {
    if Quoted(str) {
      var q := str[0];
      var content := Inner(str);
      var swapped := SwapFrom(content, 0, q, SwapChar(q));
      var once := SwapQuotes(str);
      SwapQuotesQuoted(str);
      assert Inner(once) == swapped;
      SwapQuotesQuoted(once);
      assert SwapChar(SwapChar(q)) == q;
      PlainTwice(content, q);
      assert str == [q] + content + [q];
    }
  }

  /** An apostrophe between letters is kept when re-quoting with `"`. */
  lemma {:induction false} ApostropheKeptExample()
    ensures SwapQuotes("'it's'") == "\"it's\""
  {
    assert Inner("'it's'") == "it's";
    assert IsApostrophe("it's", 2);
    assert SwapFrom("it's", 3, '\'', '"') == "s";
    assert SwapFrom("it's", 2, '\'', '"') == "'s";
    assert SwapFrom("it's", 0, '\'', '"') == "it's";
  }

  /** An apostrophe between letters is escaped when re-quoting with `'`. */
  lemma {:induction false} ApostropheEscapedExample()
    ensures SwapQuotes("\"it's\"") == "'it\\'s'"
  {
    assert Inner("\"it's\"") == "it's";
    assert IsApostrophe("it's", 2);
    assert SwapFrom("it's", 3, '"', '\'') == "s";
    assert SwapFrom("it's", 2, '"', '\'') == "\\'s";
    assert SwapFrom("it's", 0, '"', '\'') == "it\\'s";
  }

  /** Inner quotes that are not apostrophes are swapped; mismatched ends
      leave the text alone. */
  lemma {:induction false} InnerQuotesExample()
    ensures SwapQuotes("'say \"hi\"'") == "\"say 'hi'\""
    ensures SwapQuotes("'half\"") == "'half\""
  {
    var c := "say \"hi\"";
    assert Inner("'say \"hi\"'") == c;
    assert SwapFrom(c, 7, '\'', '"') == "'";
    assert SwapFrom(c, 5, '\'', '"') == "hi'";
    assert SwapFrom(c, 4, '\'', '"') == "'hi'";
    assert SwapFrom(c, 0, '\'', '"') == "say 'hi'";
  }
}
