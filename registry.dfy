/**
  The command registries: the map from command name to transform in
  src/commands/index.ts, in the older src/commands.ts and in
  src/extension.ts, and what one registry entry does to one line of text.
  Entries that forward to the string library or to npm packages call the
  `Library` parameter.
 */
module Registry {
  import opened Wrappers
  import opened Text
  import opened Numerals
  import opened Types
  import IncrementDecrement
  import Sequence
  import SwapQuotes
  import Utf8Conversion
  import opened DefaultFunctions

  /** Which of the three copies of the command layer. */
  datatype Generation =
    | Modern     // src/commands/index.ts
    | Legacy     // src/commands.ts
    | Original   // src/extension.ts

  /** What a registry entry does with one line, once any numeric argument
      has been supplied. */
  datatype Command =
    | Forward(d: Delegate)                 // a library function of the text
    | ForwardWith(d: Delegate, n: int)     // chop, truncate, repeat
    | PruneTo(n: int)
    | SnakeCase(digits: bool)
    | ScreamingSnakeCase(digits: bool)
    | CamelCase
    | Shift(delta: int)                    // increment (+1), decrement (-1)
    | Placeholder                          // `() => ""`
    | DuplicateShift(delta: int)           // `str + increment(str)`
    | Count(padded: bool)                  // sequence
    | Decode                               // utf8ToChar
    | Encode                               // charToUtf8
    | Requote                              // swapQuotes
    | NotAFunction                         // an entry that cannot be called on a text

  /** The commands that take a number before they take the text. */
  datatype ArgCommand = ChopBy | TruncateBy | PruneBy | RepeatBy

  /** A registry entry: a function of the text, or a function of a number
      that returns one. */
  datatype Entry = Fixed(c: Command) | Takes(a: ArgCommand)

  /** Why applying a transform did not produce a text. `TypeError` is the
      call of an entry that is not a function of a text. `Unrepresentable`
      is a decoded text holding a surrogate half that is not part of a pair,
      which the model's strings cannot hold. */
  datatype Failure = TypeError | Unrepresentable

  function WithArgument(a: ArgCommand, n: int): Command {
    match a
    case ChopBy => ForwardWith(Chop, n)
    case TruncateBy => ForwardWith(Truncate, n)
    case PruneBy => PruneTo(n)
    case RepeatBy => ForwardWith(Repeat, n)
  }

  /** The entries the three registries share. */
  function Common(name: string): Option<Entry> {
    if name == "titleize" then Some(Fixed(Forward(Titleize)))
    else if name == "chop" then Some(Takes(ChopBy))
    else if name == "classify" then Some(Fixed(Forward(Classify)))
    else if name == "clean" then Some(Fixed(Forward(Clean)))
    else if name == "cleanDiacritics" then Some(Fixed(Forward(CleanDiacritics)))
    else if name == "dasherize" then Some(Fixed(Forward(Dasherize)))
    else if name == "humanize" then Some(Fixed(Forward(Humanize)))
    else if name == "reverse" then Some(Fixed(Forward(Reverse)))
    else if name == "decapitalize" then Some(Fixed(Forward(Decapitalize)))
    else if name == "capitalize" then Some(Fixed(Forward(Capitalize(false))))
    else if name == "sentence" then Some(Fixed(Forward(Capitalize(true))))
    else if name == "camelize" then Some(Fixed(CamelCase))
    else if name == "swapCase" then Some(Fixed(Forward(SwapCase)))
    else if name == "truncate" then Some(Takes(TruncateBy))
    else if name == "prune" then Some(Takes(PruneBy))
    else if name == "repeat" then Some(Takes(RepeatBy))
    else if name == "increment" then Some(Fixed(Shift(1)))
    else if name == "decrement" then Some(Fixed(Shift(-1)))
    else if name == "utf8ToChar" then Some(Fixed(Decode))
    else if name == "charToUtf8" then Some(Fixed(Encode))
    else if name == "slugify" then Some(Fixed(Forward(Slugify)))
    else if name == "titleizeApStyle" then Some(Fixed(Forward(TitleizeApStyle)))
    else if name == "titleizeChicagoStyle" then Some(Fixed(Forward(TitleizeChicagoStyle)))
    else None
  }

  /** `commandNameFunctionMap[name]` of each generation. */
  function Lookup(gen: Generation, name: string): Option<Entry> {
    match gen
    case Modern =>
      if name == "underscored" || name == "snake" then Some(Fixed(SnakeCase(true)))
      else if name == "screamingSnake" then Some(Fixed(ScreamingSnakeCase(true)))
      else if name == "duplicateAndIncrement" || name == "duplicateAndDecrement" then Some(Fixed(Placeholder))
      else if name == "incrementFloat" then Some(Fixed(Forward(IncrementFloat)))
      else if name == "decrementFloat" then Some(Fixed(Forward(DecrementFloat)))
      else if name == "sequence" then Some(Fixed(Count(true)))
      else if name == "randomCase" then Some(Fixed(Forward(RandomCase)))
      else if name == "swapQuotes" then Some(Fixed(Requote))
      else Common(name)
    case Legacy =>
      if name == "underscored" || name == "snake" then Some(Fixed(SnakeCase(true)))
      else if name == "screamingSnake" then Some(Fixed(ScreamingSnakeCase(true)))
      else if name == "duplicateAndIncrement" then Some(Fixed(DuplicateShift(1)))
      else if name == "duplicateAndDecrement" then Some(Fixed(DuplicateShift(-1)))
      else if name == "sequence" then Some(Fixed(Count(false)))
      else if name == "randomCase" then Some(Fixed(Forward(RandomCase)))
      else if name == "swapQuotes" then Some(Fixed(Requote))
      else Common(name)
    case Original =>
      if name == "underscored" then Some(Fixed(Forward(Underscored)))
      else if name == "snake" then Some(Fixed(SnakeCase(false)))
      else if name == "screamingSnake" then Some(Fixed(ScreamingSnakeCase(false)))
      else if name == "duplicateAndIncrement" then Some(Fixed(DuplicateShift(1)))
      else if name == "duplicateAndDecrement" then Some(Fixed(DuplicateShift(-1)))
      else if name == "sequence" then Some(Fixed(Count(false)))
      else Common(name)
  }

  /** The number-family names of each generation: the two float variants
      exist only in the modular command layer. */
  function NumberNames(gen: Generation): seq<string> {
    if gen == Modern then NumberFunctionNames else NumberFunctionNames[..5]
  }

  /** `stringFunc`: the transform the registry gives for `name`, after the
      argument `value` when the name takes one. */
  function Resolve(gen: Generation, name: string, value: int): Command {
    match Lookup(gen, name)
    case Some(Takes(a)) => WithArgument(a, value)
    case Some(Fixed(c)) => c
    case None => NotAFunction
  }

  /** Every generation maps exactly the names that take an argument to
      functions of a number, so the argument path never calls a function of
      the text with a number, and no other path calls a function of a
      number with the text. */
  lemma {:induction false} ArgumentEntries(gen: Generation, name: string)
    ensures Lookup(gen, name).Some? && Lookup(gen, name).value.Takes? <==> name in FunctionNamesWithArgument
  {
    if name in FunctionNamesWithArgument {
      ArgumentNamesAreCommon(gen, name);
    } else if Lookup(gen, name).Some? && Lookup(gen, name).value.Takes? {
      OnlyCommonTakes(gen, name);
      CommonTakes(name);
    }
  }

  /** The names that take an argument reach the shared entries, which map
      them to functions of a number. */
  lemma {:induction false} ArgumentNamesAreCommon(gen: Generation, name: string)
    requires name in FunctionNamesWithArgument
    ensures Lookup(gen, name) == Common(name) && Common(name).Some? && Common(name).value.Takes?
  {
    assert name == "chop" || name == "truncate" || name == "prune" || name == "repeat";
  }

  /** The entries a generation adds to the shared ones are all functions of
      the text. */
  lemma {:induction false} OnlyCommonTakes(gen: Generation, name: string)
    requires Lookup(gen, name).Some? && Lookup(gen, name).value.Takes?
    ensures Lookup(gen, name) == Common(name)
  {
  }

  /** The shared entries that take an argument are exactly those of the four
      names that do. */
  lemma {:induction false} CommonTakes(name: string)
    requires Common(name).Some? && Common(name).value.Takes?
    ensures name in FunctionNamesWithArgument
  {
    assert name == "chop" || name == "truncate" || name == "prune" || name == "repeat";
    assert FunctionNamesWithArgument == ["chop", "truncate", "prune", "repeat"];
  }


  /** The duplicate commands take no argument and are number functions in
      every generation; their entry is a placeholder in the modular layer
      and the text followed by its shifted copy in the older ones. */
  lemma {:induction false} DuplicateEntries(gen: Generation, name: string)
    requires name == "duplicateAndIncrement" || name == "duplicateAndDecrement"
    ensures name !in FunctionNamesWithArgument && name in NumberNames(gen)
    ensures Resolve(gen, name, 0) ==
      if gen == Modern then Placeholder
      else DuplicateShift(if name == "duplicateAndIncrement" then 1 else -1)
  {
    assert NumberNames(gen)[3] == "duplicateAndIncrement" && NumberNames(gen)[4] == "duplicateAndDecrement";
    NameListsDisjoint(name);
  }

  /** `sequence` is a number function in every generation, so it always
      receives the shared state; the other number functions ignore it. */
  lemma {:induction false} SequenceIsNumberFunction(gen: Generation)
    ensures "sequence" in NumberNames(gen)
    ensures Resolve(gen, "sequence", 0) == Count(gen == Modern)
  {
    assert NumberNames(gen)[2] == "sequence";
  }

  /** The registries differ where the source files do: `sequence` pads only
      in the modular layer, the duplicate entries are placeholders only
      there, and the original entry point has neither `randomCase` nor
      `swapQuotes`, and keeps digits out of `snake`. */
  lemma {:induction false} GenerationsDiffer()
    ensures Resolve(Modern, "duplicateAndIncrement", 0) == Placeholder
    ensures Resolve(Legacy, "duplicateAndIncrement", 0) == DuplicateShift(1)
    ensures Resolve(Original, "duplicateAndDecrement", 0) == DuplicateShift(-1)
    ensures Resolve(Original, "randomCase", 0) == NotAFunction
    ensures Resolve(Original, "swapQuotes", 0) == NotAFunction
    ensures Resolve(Original, "snake", 0) == SnakeCase(false)
    ensures Resolve(Legacy, "snake", 0) == SnakeCase(true)
  {
    DuplicateEntries(Modern, "duplicateAndIncrement");
    DuplicateEntries(Legacy, "duplicateAndIncrement");
    DuplicateEntries(Original, "duplicateAndDecrement");
    OriginalLacks();
  }

  /** The original registry has no `randomCase` and no `swapQuotes` entry. */
  lemma {:induction false} OriginalLacks()
    ensures Lookup(Original, "randomCase") == None && Lookup(Original, "swapQuotes") == None
  {
    assert Common("randomCase") == None;
    assert Common("swapQuotes") == None;
  }


  // ---------------------------------------------------------------------
  // Applying one command to one line
  // ---------------------------------------------------------------------

  /** What calling the command on `s` returns, paired with the state
      object's offset afterwards (only `sequence` changes it). */
  function Eval(c: Command, lib: Library, s: string, offset: Option<int>): (Result<string, Failure>, Option<int>) {
    match c
    case Forward(d) => (Ok(lib(d, None, s)), offset)
    case ForwardWith(d, n) => (Ok(lib(d, Some(n), s)), offset)
    case PruneTo(n) => (Ok(Prune(n, s)), offset)
    case SnakeCase(digits) => (Ok(Snake(lib, s, digits)), offset)
    case ScreamingSnakeCase(digits) => (Ok(ScreamingSnake(lib, s, digits)), offset)
    case CamelCase => (Ok(CamelizeText(lib, s)), offset)
    case Shift(delta) => (Ok(IncrementDecrement.Shift(s, delta)), offset)
    case Placeholder => (Ok(""), offset)
    case DuplicateShift(delta) => (Ok(s + IncrementDecrement.Shift(s, delta)), offset)
    case Count(padded) =>
      var p := Sequence.Pass(Scan(s), offset, Sequence.Renderer(if padded then Sequence.Width(s) else 0));
      (Ok(p.0), p.1)
    case Decode =>
      (match Utf8Conversion.Utf16Decode(Utf8Conversion.Utf8ToChar(Utf8Conversion.Utf16Encode(s)))
       case Some(t) => (Ok(t), offset)
       case None => (Err(Unrepresentable), offset))
    case Encode =>
      (match Utf8Conversion.Utf16Decode(Utf8Conversion.CharToUtf8(Utf8Conversion.Utf16Encode(s)))
       case Some(t) => (Ok(t), offset)
       case None => (Err(Unrepresentable), offset))
    case Requote => (Ok(SwapQuotes.SwapQuotes(s)), offset)
    case NotAFunction => (Err(TypeError), offset)
  }

  /** Only `sequence` reads or writes the state, and only decoding and an
      entry that is not a function can fail; encoding never does. */
  lemma {:induction false} EvalEffects(c: Command, lib: Library, s: string, offset: Option<int>)
    ensures !c.Count? ==> Eval(c, lib, s, offset).1 == offset
    ensures Eval(c, lib, s, offset).0.Err? ==> c.Decode? || c.NotAFunction?
    ensures c.NotAFunction? ==> Eval(c, lib, s, offset).0 == Err(TypeError)
  {
    if c.Encode? {
      Utf8Conversion.EncodeDecodes(Utf8Conversion.Utf16Encode(s));
    }
  }

  /** The call of a registry entry on one line, against the caller's state
      object. */
  method Apply(c: Command, lib: Library, s: string, data: MultiSelectData) returns (r: Result<string, Failure>)
    modifies data
    ensures (r, data.offset) == Eval(c, lib, s, old(data.offset))
  {
    match c {
      case Count(padded) =>
        var t;
        if padded {
          t := Sequence.Sequence(s, data);
        } else {
          t := Sequence.UnpaddedSequence(s, data);
        }
        r := Ok(t);
      case _ =>
        r := Eval(c, lib, s, data.offset).0;
    }
  }
}
