# String Manipulation: a verified model of the command core

This project models the part of the VS Code extension "string-manipulation"
that decides what a command writes into the editor, and proves properties of
that model in Dafny.

The extension registers one command per text transform (`increment`,
`sequence`, `swapQuotes`, `charToUtf8`, `snake`, `prune`, ...). Running a
command takes these steps:

- It reads the text under every selection.
- It splits that text at line feeds.
- It applies the transform to every line and joins the lines back.
- It replaces each selection with the result.
- It remembers the command as the "last action", so that
  `repeatLastAction` can run it again.

Three generations of this orchestration exist side by side:

- the modular layer, `src/commands/index.ts`;
- the older monolith, `src/commands.ts`;
- the original entry point, `src/extension.ts`.

They differ in their registries (`sequence` pads only in the modular layer,
for example) and in how the duplicate commands work. The model covers all
three. A `Generation` value selects the layer.

Modules, one per source file or concern:

| module | models |
|---|---|
| `Numerals` | the scan that `replace(/-?\d+/g, ...)` performs, as literal characters and maximal numerals |
| `Sequence` | `sequence`: the padding width, the counter threaded through the caller's `MultiSelectData`, and the replace loop as a method that mutates the object |
| `IncrementDecrement` | `increment`/`decrement`, `handleDuplicateAndIncrementDecrement` (a loop over the editor's selections) and `updateSelectionsAfterDuplicate` |
| `SwapQuotes` | `swapQuotes`: outer quote swap, inner quote swap, apostrophe handling |
| `Utf8Conversion` | the `\uXXXX` codec, over UTF-16 code units |
| `CustomRegex` | the flag string, the ordered validation chain, the filtering of the configured list, `generateCommandId` and the picker preview |
| `DefaultFunctions` | `prune`, and the `snake`/`screamingSnake`/`camelize` wrappers around the string library |
| `Types` | `MultiSelectData` (a class whose `offset` the commands update in place) and the two name lists |
| `Host` | the editor (selections and the text under each) and the extension's global state |
| `Registry` | the three registries as a datatype of command kinds, and one command applied to one line |
| `Engine` | `stringFunction` and `repeatLastAction`, as methods over the editor and global state |
| `Preview` | `truncateForPreview` and `getTransformationPreview` |
| `Text`, `Wrappers` | JavaScript string built-ins (`trim`, `split`, `padStart`, `String(n)`) and `Option`/`Result` |

Four things are parameters of the model, not code in it:

- The string library and the npm packages are a `Library` function.
- The regular-expression compiler is a function that returns an error message or nothing.
- The number the input box returns is a `Prompt`.
- The configured custom commands are a list of JSON values.

## Model

| member | source | states |
|---|---|---|
| Numerals.Scan | src/commands/increment-decrement.ts:5 | The leftmost, greedy, non-overlapping matching of `-?\d+` that every numeric `replace` performs, as literal characters and matches. FlattenScan, ScanNumeral, ScanLiteral and ScanAppend state what it does. |
| Numerals.FlattenScan | src/commands/sequence.ts:18 | Putting the scanned pieces back together gives exactly the input. Text outside matches is neither lost nor reordered. |
| Numerals.FlattenCons | src/commands/sequence.ts:18 | The text of a piece followed by the text of the rest is the text of the whole: the replace visits the pieces left to right. |
| Numerals.SubstituteIdentity | src/commands/sequence.ts:18-42 | Replacing every match by its own text gives back the input. |
| Numerals.NoNumeralsIdentity | src/commands/sequence.ts:18 | With no match of `-?\d+`, the replace returns the input unchanged. |
| Numerals.CountZeroIffNoDigit | src/commands/increment-decrement.ts:4-8 | A text has no match exactly when it has no ASCII digit. |
| Numerals.ScanNumeral | src/commands/increment-decrement.ts:5 | A numeral followed by a non-digit is taken as one leftmost, greedy match, its `-` included. |
| Numerals.ScanLiteral | src/commands/increment-decrement.ts:5 | A character that neither is a digit nor starts `-digit` is copied as it is. |
| Numerals.ScanIntToString | src/commands/increment-decrement.ts:5 | The decimal form of any integer is a single match, and reading it back gives that integer. |
| Numerals.ScanAppend | src/commands/sequence.ts:18 | When the second part does not start with a digit, the matches of a concatenation are those of the first part followed by those of the second. |
| Numerals.ScanLines | src/commands/index.ts:129-130 | A line feed separates matches: scanning `a + "\n" + b` is scanning `a`, the line feed, then scanning `b`. |
| Numerals.NumeralsAppend | src/commands/sequence.ts:8 | The matches of concatenated pieces are the matches of each part, in order. |
| Text.Trim | src/commands/default-functions.ts:41 | `trim` returns a contiguous part of the text with no whitespace at either end. |
| Text.TrimEmpty | src/commands/preview.ts:32 | A text trims to empty exactly when every character is whitespace. |
| Text.JoinSplit | src/commands/index.ts:129-130 | Joining the line-feed split with line feeds gives back the text. |
| Text.SplitJoin | src/commands/index.ts:129-130 | Splitting a join of lines that hold no line feed gives back those lines. |
| Text.SplitCount | src/commands/increment-decrement.ts:61 | Splitting yields one more line than the text has line feeds. |
| Text.PadStartShape | src/commands/sequence.ts:34-37 | `padStart` gives the longer of the width and the text, as zeros followed by the text. It never truncates. |
| Text.NatToString | src/commands/sequence.ts:29 | `String(n)` is all digits, with a leading zero only for 0. |
| Text.DigitsValueNatToString | src/commands/sequence.ts:21 | `Number(String(n))` is `n`. |
| Text.DigitsValueLeadingZeros | src/commands/sequence.ts:21 | Leading zeros do not change the value `Number` reads. |
| Sequence.Width | src/commands/sequence.ts:8-16 | The padding width: the longest match that has a leading zero after any sign, or 0. Sequence.MaxLength states it as a maximum. |
| Sequence.Render | src/commands/sequence.ts:27-41 | The replacement of one match: the plain decimal at width 0, otherwise zero-padded after any minus sign. RenderShape and RenderValue state its shape and value. |
| Sequence.Pass | src/commands/sequence.ts:18-42 | The whole `replace` with its callback, threading the object's offset from match to match. PassCounts gives its closed form; PassAppend and TwoCallsContinue how passes compose. |
| Sequence.MaxLength | src/commands/sequence.ts:9-16 | The padding width is at least every match's contribution and equals one of them, or is 0. A match contributes its full length, sign included, only when it is longer than one character and its first digit is `0`. |
| Sequence.PaddedDigits | src/commands/sequence.ts:37 | Zero-padding a decimal keeps it all digits and keeps its value. |
| Sequence.RenderValue | src/commands/sequence.ts:27-41 | Every replacement, padded or not, is a numeral whose value is the counter value. |
| Sequence.RenderValueNegative | src/commands/sequence.ts:28-34 | A negative counter value is rendered as `-` followed by padded digits, and reads back as that value. |
| Sequence.NegatedNumeral | src/commands/sequence.ts:31-34 | A `-` in front of a run of digits makes a numeral whose value is minus the run, which is why the padded negative replacement reads back as the counter value. |
| Sequence.RenderShape | src/commands/sequence.ts:27-41 | Width 0 gives the plain decimal. Otherwise the length is the larger of the width and the decimal's length, so padding never truncates. Zeros go in front for non-negative values and after the `-` for negative ones. |
| Sequence.RenderShapeNegative | src/commands/sequence.ts:31-34 | For a negative value and a positive width: `-`, then zeros, then the digits of the magnitude, exactly as long as the width or the plain decimal, whichever is longer. |
| Sequence.RunAt | src/commands/sequence.ts:19-22 | The k-th value of a run is the start value plus k. |
| Sequence.PassCounts | src/commands/sequence.ts:18-42 | With no match, the text and the offset are unchanged. Otherwise the first match gets its own value when the object is unseeded, or offset + 1 when seeded. Each later match gets the previous value + 1, whatever its literal. Text between matches is kept, and the offset ends at the last value. |
| Sequence.PassCountsLit | src/commands/sequence.ts:18 | A literal character before the rest is copied and changes neither the values the later matches get nor the final offset. |
| Sequence.PassCountsNum | src/commands/sequence.ts:19-22 | A match before the rest takes the next value; the rest then counts on from it as if the object had been seeded with that value. |
| Sequence.PassCountsFrom | src/commands/sequence.ts:18-42 | A text with matches gets the run of consecutive values from the first match's value, and the offset ends at that run's last value. |
| Sequence.PassEnd | src/commands/sequence.ts:19-22 | After a text with matches, the object holds the first value plus the number of matches minus one. |
| Sequence.PassStep | src/commands/sequence.ts:19-22 | One replace step: a literal is copied and leaves the offset alone; a match advances the counter and is rendered at the string's width. |
| Sequence.TwoCallsContinue | src/commands/sequence.ts:19-22 | Two calls that share one object continue a single running count, whatever width each call pads to: the second starts right after the first call's last value. |
| Sequence.PassAppend | src/commands/sequence.ts:18-42 | Replacing over concatenated pieces equals replacing over the first part, then over the second from the offset the first left. |
| Sequence.ReplaceMatch | src/commands/sequence.ts:18-42 | The `replace` callback seeds the object with the match's own value or advances it by one, and returns the new value rendered at the string's width. |
| Sequence.ReplaceNumerals | src/commands/sequence.ts:18-42 | The replace loop, calling the callback once per match on the caller's object, returns the specified text and leaves the specified offset, so every property of the replace specification holds for it. |
| Sequence.Sequence | src/commands/sequence.ts:3-43 | Modular `sequence`: the loop above at the width computed from this string alone, independent of the shared state. |
| Sequence.UnpaddedSequence | src/commands.ts:15-23 | `sequence` of the older layers never pads: each match becomes the plain decimal of the running counter. |
| IncrementDecrement.Shift | src/commands/increment-decrement.ts:4-8 | Every match replaced by the decimal of its value plus `delta`. ShiftAppend, ShiftLines and ShiftIntToString state what it does. |
| IncrementDecrement.Increment | src/commands/increment-decrement.ts:4-5 | `increment` is the shift by +1. ShiftCanonical states that it steps a canonical number up and that `decrement` undoes it. |
| IncrementDecrement.Decrement | src/commands/increment-decrement.ts:7-8 | `decrement` is the shift by -1. ShiftCanonical states that it steps a canonical number down and that `increment` undoes it. |
| IncrementDecrement.ShiftNoDigit | src/commands/increment-decrement.ts:4-8 | `increment` and `decrement` leave a text without ASCII digits unchanged. |
| IncrementDecrement.ShiftIntToString | src/commands/increment-decrement.ts:4-8 | Shifting the decimal of `v` by `delta` gives the decimal of `v + delta`. |
| IncrementDecrement.ShiftNumberThen | src/commands/increment-decrement.ts:4-8 | A canonical number followed by a non-digit is shifted to the decimal of the shifted value, and the rest is shifted on its own. |
| IncrementDecrement.ShiftLiteral | src/commands/increment-decrement.ts:4-8 | A character that is neither a digit nor `-` is kept, and the text after it is shifted as if alone. |
| IncrementDecrement.ShiftAppend | src/commands/increment-decrement.ts:4-8 | Cut a text where no digit follows, and shifting the whole equals shifting each part and joining them. So every number of a text with several numbers is shifted on its own. |
| IncrementDecrement.ShiftedAppend | src/commands/increment-decrement.ts:5 | The replacements of two lists of matches are the replacements of each list, in order. |
| IncrementDecrement.ShiftLines | src/commands/increment-decrement.ts:4-8 | `increment`/`decrement` over several lines shift each line on its own and keep the line feeds. |
| IncrementDecrement.ShiftCanonical | src/commands/increment-decrement.ts:4-8 | On a canonical decimal, `increment` adds 1 and `decrement` subtracts 1, and each undoes the other. |
| IncrementDecrement.IncrementDropsPadding | src/commands/increment-decrement.ts:4-5 | Leading zeros are not kept: `"009"` becomes `"10"`. |
| IncrementDecrement.IncrementNegative | src/commands/increment-decrement.ts:4-5 | A `-` right before digits belongs to the number, so `"a-4"` becomes `"a-3"`. |
| IncrementDecrement.HandleDuplicateAndIncrementDecrement | src/commands/increment-decrement.ts:16-40 | One entry per selection, keyed by its index. Each replacement is the selection's text followed by the operation applied to that text, so the original is a prefix. |
| IncrementDecrement.UpdateSelectionsAfterDuplicate | src/commands/increment-decrement.ts:43-71 | One selection per editor selection. Each starts at its original selection's end and ends where typing the original text from there would leave the cursor. |
| IncrementDecrement.Advance | src/commands/increment-decrement.ts:53-66 | Where typing a text leaves the cursor: a line feed goes to the start of the next line, any other character one column right. It is the reference that AdvanceLines compares the source's end-position rule with. |
| IncrementDecrement.AdvanceLines | src/commands/increment-decrement.ts:57-66 | The source's end-position rule equals typing the text. Single line: same line, column advanced by the text length. Several lines: line advanced by the line count minus one, column at the last line's length. |
| IncrementDecrement.DuplicateSelectionUsesOriginalLength | src/commands/increment-decrement.ts:57-66 | The new selection spans the original text's shape, not the copy's. Duplicating `"9"` appends `"10"` but selects only one character of it. |
| SwapQuotes.ReplaceAt | src/commands/swap_quotes.ts:26-47 | What the `replace` callback returns for one inner character: an apostrophe escaped or kept by the new quote, any other quote swapped, and a non-quote left alone. |
| SwapQuotes.SwapFrom | src/commands/swap_quotes.ts:26-48 | The inner `replace` over the content, deciding every quote from the unmodified content. SwapFromToDouble and SwapFromToSingle give its output position by position. |
| SwapQuotes.IsApostrophe | src/commands/swap_quotes.ts:28-33 | An apostrophe is a `'` with neighbours on both sides, so a quote at either end of the content never is one. |
| SwapQuotes.SwapQuotes | src/commands/swap_quotes.ts:6-51 | Input shorter than two characters, not starting with a quote, or with different ends is returned unchanged. Quoted input comes back quoted with the other quote character. |
| SwapQuotes.SwapFromToDouble | src/commands/swap_quotes.ts:26-46 | Re-quoting with `"`: each inner character maps to one character. An apostrophe stays, every other quote is swapped, and everything else is kept. |
| SwapQuotes.SwapFromToSingleLength | src/commands/swap_quotes.ts:35-46 | Re-quoting with `'`: the output is as long as the content plus one per apostrophe. |
| SwapQuotes.SwapFromToSingle | src/commands/swap_quotes.ts:35-46 | Re-quoting with `'`, character by character: inner character `k` lands at its own place shifted by the apostrophes before it. An apostrophe becomes `\'`, and any other character is swapped if it is a quote and kept otherwise. |
| SwapQuotes.SingleAtShift | src/commands/swap_quotes.ts:26-48 | Output produced before a character moves that character's replacement by its own length. |
| SwapQuotes.ApostrophesTail | src/commands/swap_quotes.ts:35-46 | The callback's replacement is two characters exactly for an apostrophe (`\'`) and otherwise the swapped character. |
| SwapQuotes.SwapFromPlain | src/commands/swap_quotes.ts:26-46 | With no letter-flanked quote, either direction swaps every quote and keeps every other character in place. |
| SwapQuotes.SwapQuotesLength | src/commands/swap_quotes.ts:37-46 | Output length equals input length, plus one per apostrophe when the input is `"`-quoted. |
| SwapQuotes.SwapQuotesFromSingle | src/commands/swap_quotes.ts:21-46 | `'`-quoted input becomes `"`-quoted with each inner character in place: apostrophes kept, other quotes swapped. |
| SwapQuotes.SwapQuotesFromDouble | src/commands/swap_quotes.ts:21-50 | `"`-quoted input becomes `'`-quoted. Each apostrophe becomes `\'`, and every other inner character is swapped if it is a quote and kept otherwise, in order. |
| SwapQuotes.RequotedSingle | src/commands/swap_quotes.ts:50 | Between the new outer quotes, every inner character's replacement sits one place further on. |
| SwapQuotes.PlainTwice | src/commands/swap_quotes.ts:26-48 | Without flanked quotes, swapping the content one way and back restores it. |
| SwapQuotes.SwapQuotesInvolution | src/commands/swap_quotes.ts:6-51 | Applying `swapQuotes` twice gives back the input when no inner quote has ASCII letters on both sides. |
| SwapQuotes.ApostropheKeptExample | src/commands/swap_quotes.ts:40-43 | `'it's'` becomes `"it's"`: the apostrophe is kept under `"`. |
| SwapQuotes.ApostropheEscapedExample | src/commands/swap_quotes.ts:37-39 | `"it's"` becomes `'it\'s'`: the apostrophe is escaped under `'`. |
| SwapQuotes.InnerQuotesExample | src/commands/swap_quotes.ts:13-19 | Inner quotes that are not apostrophes are swapped, and text with mismatched ends is left alone. |
| Utf8Conversion.HexUnit | src/commands/utf8-conversion.ts:12 | The hex digit written for a value is a lowercase hex digit that reads back as that value. |
| Utf8Conversion.CharToUtf8 | src/commands/utf8-conversion.ts:10-14 | The encoding is six code units per input code unit. |
| Utf8Conversion.CharToUtf8Shape | src/commands/utf8-conversion.ts:10-14 | The k-th block of six is the `\u` escape of the k-th unit, and it matches the decoder's pattern. |
| Utf8Conversion.CharToUtf8Ascii | src/commands/utf8-conversion.ts:10-14 | The encoding is pure ASCII. |
| Utf8Conversion.Utf8ToChar | src/commands/utf8-conversion.ts:3-8 | The decoder yields at most one code unit per six input units. |
| Utf8Conversion.EscapeDecodes | src/commands/utf8-conversion.ts:5-6 | The escape of a unit matches `\\u[\dA-Fa-f]{4}` and decodes back to that unit. |
| Utf8Conversion.RoundTrip | src/commands/utf8-conversion.ts:3-14 | Decoding the encoding of any code-unit string, surrogate halves included, gives it back. |
| Utf8Conversion.DecodeOneUnitThen | src/commands/utf8-conversion.ts:3-14 | A character below U+10000 is one code unit: decoding it followed by more units is that character followed by the rest decoded. |
| Utf8Conversion.DecodePairThen | src/commands/utf8-conversion.ts:3-14 | A character from U+10000 up is its surrogate pair: decoding the pair followed by more units is that character followed by the rest decoded. |
| Utf8Conversion.ReencodeStable | src/commands/utf8-conversion.ts:3-14 | Encoding, decoding and encoding again equals encoding once. |
| Utf8Conversion.DropsNonEscapes | src/commands/utf8-conversion.ts:4-7 | Text without a backslash contributes nothing to the decoding. |
| Utf8Conversion.EmptyIffNoMatch | src/commands/utf8-conversion.ts:3-8 | The decoder returns the empty string exactly when no position starts a `\uXXXX` match. |
| Utf8Conversion.HexCaseInsensitive | src/commands/utf8-conversion.ts:5 | An uppercase hex letter and its lowercase form are both accepted and have the same value. |
| CustomRegex.FlagString | src/commands/custom-regex.ts:16-27 | The flag string `convertNamedFlagsToString` builds: a letter per truthy field in `gimsuy` order, or `g` when none is. FlagStringProperties and SetFlagsOrdered state its properties. |
| CustomRegex.ConvertNamedFlagsToString | src/commands/custom-regex.ts:16-27 | The `+=` chain builds exactly the specified flag string. |
| CustomRegex.SetFlagsOrdered | src/commands/custom-regex.ts:17-23 | Letters come in strictly increasing `gimsuy` order, so each appears at most once, and a letter appears exactly when its field is truthy. |
| CustomRegex.NoFlagSetIffEmpty | src/commands/custom-regex.ts:17-26 | The `+=` chain leaves the string empty, so that the fallback `g` is used, exactly when no flag field is truthy. |
| CustomRegex.FlagStringProperties | src/commands/custom-regex.ts:16-27 | The flag string is never empty, is ordered, and holds `i`, `m`, `s`, `u`, `y` exactly for truthy fields. `g` appears when `global` is truthy or no field is; with no truthy field it is `"g"`. |
| CustomRegex.FirstBadFlag | src/commands/custom-regex.ts:121-130 | The reported flag field is the first one that is present but not a boolean; none is reported exactly when all are absent or boolean. |
| CustomRegex.FirstBadFlagAt | src/commands/custom-regex.ts:123-130 | The field the loop stops at is the first bad one. |
| CustomRegex.CheckFlagTypes | src/commands/custom-regex.ts:121-130 | The loop over the six flag fields reports `<field> must be a boolean value` for the first field that is present but not a boolean, and nothing when there is none. |
| CustomRegex.Validate | src/commands/custom-regex.ts:70-142 | `validateCustomCommand` as the first failing check of eight, in order, or valid. ValidateOrder and ValidIffRegexAccepts state its meaning. |
| CustomRegex.FirstFailureDecides | src/commands/custom-regex.ts:74-130 | When checks before `k` pass and check `k` fails, check `k`'s message is the result. |
| CustomRegex.NoFailure | src/commands/custom-regex.ts:74-141 | No failure is reported exactly when every remaining check passes. |
| CustomRegex.ChecksInOrder | src/commands/custom-regex.ts:74-141 | The eight checks run in the source's order: object, name present, name length, name characters, pattern, replacement, flag types, regex compilation. |
| CustomRegex.Stage | src/commands/custom-regex.ts:74-141 | Once the earlier checks have passed, a failing check decides the verdict and a passing one hands over to the next. |
| CustomRegex.ValidateOrder | src/commands/custom-regex.ts:70-142 | A command is valid exactly when all eight checks pass, and the first failing check decides the error. |
| CustomRegex.ValidIffRegexAccepts | src/commands/custom-regex.ts:132-141 | A command that passes the seven shape checks is valid exactly when the regex compiler accepts its pattern with its flag string. |
| CustomRegex.ValidateCustomCommand | src/commands/custom-regex.ts:70-142 | The early-return checks, flag loop included, give the specified verdict. |
| CustomRegex.ValidCommands | src/commands/custom-regex.ts:151-158 | For any validation, the kept list is never longer than the configured list. |
| CustomRegex.InvalidMessages | src/commands/custom-regex.ts:151-158 | Messages are numbered from a given start, one per rejected command. Every configured command is either kept or reported, never both. |
| CustomRegex.ValidCommandsExact | src/commands/custom-regex.ts:151-158 | For any validation, a configured command is kept exactly when it validates. |
| CustomRegex.SplitStep | src/commands/custom-regex.ts:151-158 | Command `i` goes to exactly one list according to its validation: kept when valid, otherwise reported as `Command {i+1}: {error}`. |
| CustomRegex.GetCustomCommands | src/commands/custom-regex.ts:144-170 | The loop returns the commands that `validateCustomCommand` accepts, in configuration order, and one `Command {i+1}: {error}` message per rejected one, numbered by position. |
| CustomRegex.Lower | src/commands/custom-regex.ts:174 | Lowercasing keeps the length and lowercases each ASCII letter. |
| CustomRegex.Dashify | src/commands/custom-regex.ts:175 | Every character outside `a-z0-9` becomes a dash and the length is kept. |
| CustomRegex.CollapseDashes | src/commands/custom-regex.ts:176 | After collapsing there are no two dashes in a row. The first and last characters and the id alphabet are kept. |
| CustomRegex.StripDashes | src/commands/custom-regex.ts:177 | Stripping never lengthens the text and keeps the id alphabet. |
| CustomRegex.CollapseIdentity | src/commands/custom-regex.ts:176 | Collapsing leaves a text with no double dash unchanged. |
| CustomRegex.GenerateCommandId | src/commands/custom-regex.ts:172-178 | `generateCommandId`: lowercase, dashify, collapse dashes, strip edge dashes. CommandIdShape, CommandIdIdempotent and TwoWordId state what it yields. |
| CustomRegex.CommandIdShape | src/commands/custom-regex.ts:172-178 | An id uses only `a-z`, `0-9` and `-`, has no `--`, and neither starts nor ends with `-`. |
| CustomRegex.IdFixedPoint | src/commands/custom-regex.ts:172-178 | Every step of the pipeline leaves a well-formed id unchanged. |
| CustomRegex.CommandIdIdempotent | src/commands/custom-regex.ts:172-178 | Generating an id from an id changes nothing. |
| CustomRegex.TwoWordId | src/commands/custom-regex.ts:172-178 | Two words of ASCII letters separated by a space give their lowercase forms joined by one dash (`"Extract Numbers"` gives `"extract-numbers"`). |
| CustomRegex.PickerPreview | src/commands/custom-regex.ts:211-234 | The custom picker's preview of a command on the first line. PickerPreviewProperties states when it exists and how it is cut. |
| CustomRegex.PickerPreviewProperties | src/commands/custom-regex.ts:211-234 | A picker preview exists only when the command does not throw, and it differs from the first line. A result of at most 50 characters is shown whole; a longer one as its first 47 characters plus `...`. |
| DefaultFunctions.Prune | src/commands/default-functions.ts:40-41 | `prune(n)`: the slice up to `n - 3`, trimmed, then `...`. PruneShape and PruneKeepsPrefix state its shape. |
| DefaultFunctions.PruneShape | src/commands/default-functions.ts:40-41 | `prune(n)` always ends with `...` after a trimmed prefix. For `n >= 3` it keeps at most `n - 3` characters, so its length is at most `n`. For `n < 3` it drops the last `3 - n` characters. |
| DefaultFunctions.PruneKeepsPrefix | src/commands/default-functions.ts:40-41 | For `n >= 3` and a text of at least `n - 3` characters whose kept part starts and ends with non-whitespace, `prune(n)` is exactly the first `n - 3` characters followed by `...`. |
| DefaultFunctions.PruneExample | src/test/extension.test.ts:56 | `prune(8)` of `"aabbccddaabbccdd"` is `"aabbc..."`. |
| DefaultFunctions.SpaceBeforeCapitals | src/commands/default-functions.ts:11 | The replace of an uppercase letter and the non-uppercase character after it by a space and the letter. The character after the letter is dropped, as the pattern consumes it and the replacement `" $1"` does not restore it. |
| DefaultFunctions.CollapseOthers | src/commands/default-functions.ts:12 | The replace of every run of characters outside `[a-z0-9]` (or `[a-z]`), case-insensitive, by one space. CollapseRun, CollapseKept and CollapseAppend pin its result down, and CollapseKeepsKept keeps the kept characters. |
| DefaultFunctions.CollapseShape | src/commands/default-functions.ts:12 | The collapsed text holds only kept characters and spaces, with no two spaces in a row. It starts with a space exactly when the input starts outside the class. |
| DefaultFunctions.CollapseRun | src/commands/default-functions.ts:12 | A non-empty run of characters outside the class becomes exactly one space. |
| DefaultFunctions.CollapseKept | src/commands/default-functions.ts:12 | Text made only of kept characters is unchanged. |
| DefaultFunctions.CollapseAppend | src/commands/default-functions.ts:12 | Where a kept character stands on one side of a cut, the two sides collapse independently. With CollapseRun and CollapseKept this fixes the result: kept characters in order, one space per maximal run. |
| DefaultFunctions.CollapseKeepsKept | src/commands/default-functions.ts:12 | The characters of the class survive in order: filtering them from the output gives those of the input. |
| DefaultFunctions.Underscore | src/commands/default-functions.ts:14 | Each whitespace character becomes `_` and everything else stays. |
| DefaultFunctions.Snake | src/commands/default-functions.ts:8-14 | `snake`: the library's `underscored`, then the capitals, collapse, trim and whitespace steps. SnakeShape states the result's shape. |
| DefaultFunctions.ScreamingSnake | src/commands/default-functions.ts:16-17 | `screamingSnake`: the upper case of `snake`. ScreamingSnakeShape states its shape. |
| DefaultFunctions.SnakeShape | src/commands/default-functions.ts:8-14 | Whatever the library's `underscored` returns, `snake` yields kept characters joined by single underscores, with none at either end. |
| DefaultFunctions.UpperShape | src/commands/default-functions.ts:17 | Upper-casing a snake-shaped text keeps its length and its shape, leaves no lowercase letter, and changes each character only in case. |
| DefaultFunctions.ScreamingSnakeShape | src/commands/default-functions.ts:16-17 | `screamingSnake` is `snake` upper-cased: same length, no lowercase letter, equal up to case, and snake-shaped. |
| DefaultFunctions.CamelizeText | src/commands/default-functions.ts:19-20 | The library receives the text unchanged when it holds an ASCII lowercase letter, and its lowercase form otherwise. |
| Types.MultiSelectData.constructor | src/commands/types.ts:3-5 | A fresh state object is unseeded. |
| Types.NameListsDisjoint | src/commands/types.ts:20-35 | No command is both a number function and one that takes an argument. |
| Registry.Lookup | src/commands/index.ts:27-64 | `commandNameFunctionMap[name]` of each generation: the shared entries plus each layer's own. ArgumentEntries, GenerationsDiffer and OriginalLacks state how they differ. |
| Registry.Resolve | src/commands/index.ts:94-110 | The transform `stringFunction` picks for a name, after the prompt value for a command that takes one. A name with no entry is a TypeError when called. |
| Registry.Eval | src/commands/index.ts:105-109 | Calling a transform on a line with the state object. EvalEffects states which transforms read or move the offset and how each can fail. |
| Registry.ArgumentEntries | src/commands/index.ts:94-104 | In every generation, exactly `chop`, `truncate`, `prune` and `repeat` map to functions of a number. |
| Registry.ArgumentNamesAreCommon | src/commands/index.ts:94-104 | Each of `chop`, `truncate`, `prune`, `repeat` has the same entry in every generation, and it is a function of a number. |
| Registry.OnlyCommonTakes | src/commands/index.ts:94-104 | Every entry that takes a number is one of the entries all generations share. |
| Registry.CommonTakes | src/commands/types.ts:30-35 | A shared entry that takes a number belongs to a name in `functionNamesWithArgument`. |
| Registry.SequenceIsNumberFunction | src/commands/types.ts:20-28 | `sequence` is a number function in every generation, and it pads only in the modular layer. |
| Registry.DuplicateEntries | src/commands.ts:85-86 | The duplicate commands take no argument and are number functions everywhere. Their entry is a placeholder in the modular layer, which handles them separately, and the text followed by its shifted copy in the older layers. |
| Registry.GenerationsDiffer | src/commands/index.ts:27-64 | The registries differ as the three layers do. The duplicates are placeholders only in the modular layer. The original layer lacks `randomCase` and `swapQuotes` and keeps digits out of `snake`. |
| Registry.OriginalLacks | src/extension.ts:33-86 | The original registry has no `randomCase` and no `swapQuotes` entry. |
| Registry.EvalEffects | src/commands/index.ts:105-109 | Only `sequence` touches the shared state. Only decoding and a name with no function can fail, and a name with no function is a TypeError. |
| Registry.Apply | src/commands/index.ts:105-107 | Calling an entry with the caller's state object gives the specified text and offset. |
| Engine.StringFunc | src/commands/index.ts:104-110 | `stringFunc` as a line function that threads the state object's offset, shared only for number-family names. StringFuncStateless states when it ignores that state. |
| Engine.Expected | src/commands/index.ts:94-133 | What a run computes from the selections' texts: nothing after a dismissed or NaN prompt, the duplicates in the modular layer, and otherwise the transform over every line of every selection. Engine.Run and Engine.Replacements are proved to compute it. |
| Engine.MapLines | src/commands/index.ts:129-130 | When no line fails, the map yields one result per line. |
| Engine.ReplaceAll | src/commands/index.ts:127-133 | When no selection fails, there is exactly one replacement per selection, in selection order. |
| Engine.LinesIndependent | src/commands/index.ts:127-133 | For any line function that leaves the state alone, the state stays untouched, each line's result is the function on that line alone, and the map fails exactly when some line fails. |
| Engine.StringFuncStateless | src/commands/index.ts:104-110 | The transform built for any command but `sequence`, or built without the shared object, leaves the state alone and gives each line the command's own result. |
| Engine.PassLines | src/commands/index.ts:130 | Unpadded `sequence` over two lines joined by a line feed equals the two per-line calls that share the counter, joined. |
| Engine.SequenceAcrossLines | src/commands.ts:156-162 | With the shared object, mapping unpadded `sequence` over the lines and joining them equals one `sequence` over the whole text. The count continues across lines. |
| Engine.SequenceAcrossSelections | src/extension.ts:131-136 | The count also continues across selections. Joining the replacements with line feeds equals one unpadded `sequence` over all the texts joined the same way, and the offset ends where that run ends. |
| Engine.DuplicatesPerLine | src/commands/index.ts:112-125 | The modular layer duplicates the whole selection text once. The older layers duplicate each line separately and join the lines. |
| Engine.DuplicateLines | src/commands.ts:156-162 | In the older layers, duplicating a selection duplicates each of its lines and joins them back with line feeds. |
| Engine.MapSelection | src/commands/index.ts:128-130 | For any line function, the split-map-join loop with the shared object gives the specified text and offset. |
| Engine.ReplaceSelections | src/commands/index.ts:127-133 | For any line function, the selection loop returns the specified replacements, with one map entry per selection index holding that selection and its replacement. |
| Engine.Replacements | src/commands/index.ts:94-133 | The first half of `stringFunction`, which changes nothing, yields the specified outcome. When it resolves, there is one replacement and one map entry per selection, pairing each selection with its replacement. |
| Engine.EditSelections | src/commands/index.ts:137-141 | The edit replaces the text of every selection with its replacement and keeps the selections. |
| Engine.Run | src/commands/index.ts:74-155 | `stringFunction` in full. No editor: `undefined`, nothing changed. A cancelled or NaN prompt: `undefined` before any selection is read. When the run applies, the document holds the replacements and `lastAction` is the command name. The modular layer's duplicate commands then select the appended copy; every other selection stays. In preview mode nothing changes but the replacements are returned. The original layer always applies and settles with `undefined`. |
| Engine.RepeatLastAction | src/commands/index.ts:164-168 | With no stored name, or an empty one, nothing happens. Otherwise the stored command runs again with `shouldApply` true, with the effect of running it by name. Its outcome is the settled replacements. When they apply, the document holds them and duplicate selections move onto the copies; otherwise the editor is unchanged. The stored name stays. |
| Preview.TruncateForPreview | src/commands/preview.ts:15-23 | `truncateForPreview`: the text if it fits, otherwise `substring(0, maxLength - 3)` plus `...`. TruncateShape states its shape. |
| Preview.TruncateShape | src/commands/preview.ts:15-23 | A text that fits is returned unchanged. A longer one is cut to exactly `maxLength` characters (three when `maxLength < 3`), ending in `...` after a prefix of the text. |
| Preview.OnlySequenceCounts | src/commands/preview.ts:53-55 | In the modular registry only `sequence` is a counting command. So once `sequence` is excluded, the fresh state object the preview passes affects no previewed command. |
| Preview.TransformationPreview | src/commands/preview.ts:28-76 | `getTransformationPreview` with the registry's transforms. PreviewProperties and PreviewIsFirstLine state when it exists and what it shows. |
| Preview.PreviewProperties | src/commands/preview.ts:28-76 | A preview exists exactly for a non-blank selection, a command that is neither an argument command nor a duplicate nor `sequence`, and a first-line transform that does not throw. It is at most 30 characters long. |
| Preview.PreviewIsFirstLine | src/commands/preview.ts:62-66 | When the command succeeds on every line, the preview is what running it writes for the first line, truncated. |

## Left out

- Strings are sequences of Unicode scalar values, not UTF-16 code units, outside the codec. An astral character counts as one character in lengths, so in `prune`, `truncateForPreview`, the 50-character name limit and the duplicate-selection columns. The codec itself works on code units and converts at its boundary.
- A decoded `\uXXXX` sequence that leaves a lone surrogate half cannot be a Dafny string. The model reports it as the failure `Unrepresentable`. JavaScript would keep the lone half in the string.
- Library transforms are the `Library` parameter, with no behaviour of their own. This covers `underscore.string` (titleize, classify, clean, cleanDiacritics, dasherize, humanize, reverse, capitalize, decapitalize, swapCase, chop, truncate, repeat, underscored, camelize), `String.prototype.toLowerCase`, `./title-case.ts`, `./slugify`, `incrementFloat` and `decrementFloat`. `./slugify` and the float variants are not part of this model.
- `randomCase` (src/commands/random-case.ts) is driven by `Math.random`. It is a `Library` entry whose random source the caller fixes.
- Regular-expression compilation in `validateRegexPattern` and the user pattern's `replace` in `createCustomRegexFunction` are not modelled. Validation takes the compiler's verdict as a parameter. The picker preview takes the compiled command as a function that may throw.
- JavaScript `Number` semantics are not modelled. Values are unbounded integers, so there is no double rounding above 2^53, no `-0`, and no fractional prompt value. The parsing of the input box (`Number(valueStr)`, `isNaN`) becomes a `Prompt`: cancelled, not a number, or an integer.
- The empty-match case of `Math.max(...[])` (negative infinity) is taken as width 0. Both give no padding.
- VS Code plumbing is not modelled: `activate` and command registration, the sidebar (src/sidebar.ts), telemetry (src/telemetry.ts), `showTransformationQuickPick`, `registerPreviewCommand`, and the dialogs and warning message of `getCustomCommands` and `showCustomCommandPicker`. Only the picker's preview text is modelled.
- The editor holds one text per selection. Overlapping selections and the host's own adjustment of selections after an edit are not modelled: the edit keeps the selection values unchanged.
- IncrementDecrement.UpdateSelectionsAfterDuplicate: receives each selection's original text instead of re-reading the document after the edit. The replacement begins with the original text, so the result is the same whenever the selection still covers its original range.
- The asynchronous `editor.edit` and `globalState.update` are modelled as immediate updates. A failing edit is not modelled.
- `generateCommandId` lowercases ASCII letters only. JavaScript's `toLowerCase` also maps some non-ASCII letters to ASCII (U+212A KELVIN SIGN gives `k`, U+0130 gives `i` and a combining dot), where the model gives a dash. Such names never reach `generateCommandId`: validation (src/commands/custom-regex.ts:96) admits only ASCII letters, digits, whitespace, `-` and `_`, and only validated commands reach the picker that calls it (src/commands/custom-regex.ts:279). The name length check counts Dafny characters.
- extension.js and test/suite/extension.test.js, an older build with other command names, are not part of this model.
- The literal test cases of src/test/extension.test.ts for `sequence`, for `increment`/`decrement` over several numbers and lines, and for the codec are not restated as examples. What they instance is stated for all inputs: Sequence.PassCounts, Sequence.TwoCallsContinue and Engine.SequenceAcrossLines for the count; IncrementDecrement.ShiftLines, ShiftAppend, ShiftLiteral and ShiftNumberThen, which take a text apart line by line and number by number, with ShiftIntToString for each number; Utf8Conversion.RoundTrip for the codec. The `prune`, `"a-4"` and `"009"` cases are stated.
- Engine.MapSelection: the line function returns the new offset, and the loop writes it back into the shared object; the transform does not write the object itself. Registry.Apply shows that the in-place `sequence` loop agrees with that line function.
- Preview.PreviewIsFirstLine: speaks only of runs in which every line succeeds. When a later line throws, the full run rejects while the preview still shows the first line.
- `increment`/`decrement` do not keep leading zeros. The model follows the code.
