/**
  User-defined regex commands (src/commands/custom-regex.ts): the flag
  string built from named boolean fields, the ordered validation of one
  configured command, the split of the configuration into valid commands and
  numbered error messages, the command-id slug, and the preview shown in
  the command picker. Whether a pattern compiles, and what it replaces, are
  decided by the JavaScript regular-expression engine, which is not part of
  this model: both come in as function parameters.
 */
module CustomRegex {
  import opened Wrappers
  import opened Text

  /** A configuration value as the settings JSON delivers it. */
  datatype Json =
    | Undefined
    | Null
    | Bool(b: bool)
    | Num(n: int)
    | Str(s: string)
    | Array(items: seq<Json>)
    | Object(fields: map<string, Json>)

  /** JavaScript truthiness. */
  predicate Truthy(v: Json) {
    match v
    case Undefined => false
    case Null => false
    case Bool(b) => b
    case Num(n) => n != 0
    case Str(s) => s != ""
    case _ => true
  }

  /** `typeof v === "object"` for a truthy `v` (arrays are objects). */
  predicate IsObject(v: Json) {
    v.Object? || v.Array?
  }

  /** `v[key]`: a missing property reads as undefined. */
  function Field(v: Json, key: string): Json {
    if v.Object? && key in v.fields then v.fields[key] else Undefined
  }

  /** The named flag fields and the letter each one adds, in emission order. */
  const FlagProperties: seq<string> := ["global", "ignoreCase", "multiline", "dotAll", "unicode", "sticky"]
  const FlagLetters: string := "gimsuy"

  // ---------------------------------------------------------------------
  // convertNamedFlagsToString
  // ---------------------------------------------------------------------

  /** The letter field `k` adds: its letter when the field is truthy. */
  function FlagLetter(command: Json, k: nat): string
    requires k < 6
  {
    if Truthy(Field(command, FlagProperties[k])) then [FlagLetters[k]] else ""
  }

  /** The letters the first `k` fields add, in order. */
  function SetFlags(command: Json, k: nat): string
    requires k <= 6
  {
    if k == 0 then "" else SetFlags(command, k - 1) + FlagLetter(command, k - 1)
  }

  /** The flag string: the set letters, or `"g"` when none is set. */
  function FlagString(command: Json): string {
    var flags := SetFlags(command, 6);
    if flags == "" then "g" else flags
  }

  /** `convertNamedFlagsToString`: appends one letter per truthy field and
      falls back to `"g"`. */
  method ConvertNamedFlagsToString(command: Json) returns (flags: string)
    ensures flags == FlagString(command)
  {
    flags := "";
    if Truthy(Field(command, "global")) { flags := flags + "g"; }
    assert flags == SetFlags(command, 1);
    if Truthy(Field(command, "ignoreCase")) { flags := flags + "i"; }
    assert flags == SetFlags(command, 2);
    if Truthy(Field(command, "multiline")) { flags := flags + "m"; }
    assert flags == SetFlags(command, 3);
    if Truthy(Field(command, "dotAll")) { flags := flags + "s"; }
    assert flags == SetFlags(command, 4);
    if Truthy(Field(command, "unicode")) { flags := flags + "u"; }
    assert flags == SetFlags(command, 5);
    if Truthy(Field(command, "sticky")) { flags := flags + "y"; }
    assert flags == SetFlags(command, 6);
    if flags == "" {
      flags := "g";
    }
  }

  /** Position of a flag letter in `gimsuy`. */
  function LetterRank(c: char): nat {
    if c == 'g' then 0 else if c == 'i' then 1 else if c == 'm' then 2
    else if c == 's' then 3 else if c == 'u' then 4 else if c == 'y' then 5 else 6
  }

  /** The letters of the first `k` fields have ranks below `k`, in strictly
      increasing order, and letter `j` is there exactly when its field is
      truthy. */
  lemma {:induction false} SetFlagsOrdered(command: Json, k: nat)
    requires k <= 6
    ensures forall i :: 0 <= i < |SetFlags(command, k)| ==> LetterRank(SetFlags(command, k)[i]) < k
    ensures forall i, j :: 0 <= i < j < |SetFlags(command, k)| ==>
      LetterRank(SetFlags(command, k)[i]) < LetterRank(SetFlags(command, k)[j])
    ensures forall j :: 0 <= j < k ==> (FlagLetters[j] in SetFlags(command, k) <==> Truthy(Field(command, FlagProperties[j])))
  {
    if k > 0 {
      SetFlagsOrdered(command, k - 1);
      var prev := SetFlags(command, k - 1);
      var flags := prev + FlagLetter(command, k - 1);
      assert SetFlags(command, k) == flags;
      LetterRanks();
      forall i | 0 <= i < |flags|
        ensures flags[i] == if i < |prev| then prev[i] else FlagLetters[k - 1]
      {
      }
      forall j | 0 <= j < k
        ensures FlagLetters[j] in flags <==> FlagLetters[j] in prev || (j == k - 1 && Truthy(Field(command, FlagProperties[j])))
      {
        if FlagLetters[j] in prev {
          var i :| 0 <= i < |prev| && prev[i] == FlagLetters[j];
          assert flags[i] == FlagLetters[j];
        }
      }
    }
  }

  /** `LetterRank` reads back the position of a letter in `gimsuy`. */
  lemma {:induction false} LetterRanks()
    ensures forall j :: 0 <= j < 6 ==> LetterRank(FlagLetters[j]) == j
  {
    assert FlagLetters == ['g', 'i', 'm', 's', 'u', 'y'];
  }

  /** The flag string is never empty; its letters come in the order
      g, i, m, s, u, y, each at most once; a letter is present exactly when
      its field is truthy, except that `g` also stands in when no field is. */
  lemma {:induction false} FlagStringProperties(command: Json)
    ensures FlagString(command) != ""
    ensures forall i, j :: 0 <= i < j < |FlagString(command)| ==>
      LetterRank(FlagString(command)[i]) < LetterRank(FlagString(command)[j]) < 6
    ensures forall j :: 0 < j < 6 ==> (FlagLetters[j] in FlagString(command) <==> Truthy(Field(command, FlagProperties[j])))
    ensures 'g' in FlagString(command) <==>
      Truthy(Field(command, "global")) || forall j :: 0 <= j < 6 ==> !Truthy(Field(command, FlagProperties[j]))
    ensures (forall j :: 0 <= j < 6 ==> !Truthy(Field(command, FlagProperties[j]))) ==> FlagString(command) == "g"
  {
    var flags := SetFlags(command, 6);
    SetFlagsOrdered(command, 6);
    NoFlagSetIffEmpty(command, 6);
    assert FlagLetters[0] == 'g' && FlagProperties[0] == "global";
    if flags == "" {
      assert FlagString(command) == "g";
      forall j | 0 < j < 6
        ensures FlagLetters[j] !in FlagString(command) && !Truthy(Field(command, FlagProperties[j]))
      {
        assert FlagLetters[j] != 'g';
      }
    } else {
      assert FlagString(command) == flags;
      assert 'g' in flags <==> Truthy(Field(command, "global"));
    }
  }

  /** No letter is set by the first `k` fields exactly when none of them is
      truthy. */
  lemma {:induction false} NoFlagSetIffEmpty(command: Json, k: nat)
    requires k <= 6
    ensures SetFlags(command, k) == "" <==> forall j :: 0 <= j < k ==> !Truthy(Field(command, FlagProperties[j]))
  {
    if k > 0 {
      NoFlagSetIffEmpty(command, k - 1);
      assert SetFlags(command, k) == SetFlags(command, k - 1) + FlagLetter(command, k - 1);
    }
  }


  // ---------------------------------------------------------------------
  // validateCustomCommand
  // ---------------------------------------------------------------------

  datatype Validation = Valid | Invalid(error: string)

  const MustBeObject := "Command must be an object"
  const NameRequired := "Command name is required and must be a non-empty string"
  const NameTooLong := "Command name must be 50 characters or less"
  const NameCharacters := "Command name can only contain letters, numbers, spaces, hyphens, and underscores"
  const PatternRequired := "Search pattern is required and must be a string"
  const ReplacementRequired := "Replacement must be a string (can be empty)"

  /** `^[a-zA-Z0-9\s\-_]+$`. */
  predicate NameCharactersOk(name: string) {
    |name| > 0
    && forall i :: 0 <= i < |name| ==>
      IsAsciiAlphanumeric(name[i]) || IsWhitespace(name[i]) || name[i] == '-' || name[i] == '_'
  }

  /** Whether a flag field is absent or a boolean. */
  predicate FlagFieldOk(v: Json) {
    v.Undefined? || v.Bool?
  }

  /** The first flag field, from position `k` on, that is present but not a boolean. */
  function FirstBadFlag(command: Json, k: nat): (r: Option<nat>)
    requires k <= 6
    ensures r.Some? ==>
      && k <= r.value < 6
      && !FlagFieldOk(Field(command, FlagProperties[r.value]))
      && forall j :: k <= j < r.value ==> FlagFieldOk(Field(command, FlagProperties[j]))
    ensures r.None? <==> forall j :: k <= j < 6 ==> FlagFieldOk(Field(command, FlagProperties[j]))
    decreases 6 - k
  {
    if k == 6 then None
    else if !FlagFieldOk(Field(command, FlagProperties[k])) then Some(k)
    else FirstBadFlag(command, k + 1)
  }

  function ObjectCheck(command: Json): Option<string> {
    if !Truthy(command) || !IsObject(command) then Some(MustBeObject) else None
  }

  function NameCheck(command: Json): Option<string> {
    var name := Field(command, "name");
    if !Truthy(name) || !name.Str? || |Trim(name.s)| == 0 then Some(NameRequired) else None
  }

  function LengthCheck(command: Json): Option<string> {
    var name := Field(command, "name");
    if name.Str? && |name.s| > 50 then Some(NameTooLong) else None
  }

  function CharactersCheck(command: Json): Option<string> {
    var name := Field(command, "name");
    if name.Str? && !NameCharactersOk(name.s) then Some(NameCharacters) else None
  }

  function PatternCheck(command: Json): Option<string> {
    var pattern := Field(command, "searchPattern");
    if !Truthy(pattern) || !pattern.Str? then Some(PatternRequired) else None
  }

  function ReplacementCheck(command: Json): Option<string> {
    var replacement := Field(command, "replacement");
    if replacement.Undefined? || !replacement.Str? then Some(ReplacementRequired) else None
  }

  function FlagsCheck(command: Json): Option<string> {
    match FirstBadFlag(command, 0)
    case Some(j) => Some(FlagProperties[j] + " must be a boolean value")
    case None => None
  }

  /** `regexError` stands for compiling the pattern with the flag string:
      `Some(message)` when the engine throws. */
  function RegexCheck(command: Json, regexError: (string, string) -> Option<string>): Option<string> {
    var pattern := Field(command, "searchPattern");
    if !pattern.Str? then None
    else match regexError(pattern.s, FlagString(command))
      case Some(e) => Some("Invalid regex pattern: " + e)
      case None => None
  }

  /** Check number `k` of the eight, in the order they run: `None` when it
      passes, the error message when it fails. */
  function Check(command: Json, regexError: (string, string) -> Option<string>, k: nat): Option<string>
    requires k < 8
  {
    if k == 0 then ObjectCheck(command)
    else if k == 1 then NameCheck(command)
    else if k == 2 then LengthCheck(command)
    else if k == 3 then CharactersCheck(command)
    else if k == 4 then PatternCheck(command)
    else if k == 5 then ReplacementCheck(command)
    else if k == 6 then FlagsCheck(command)
    else RegexCheck(command, regexError)
  }

  /** The message of the first failing check from `k` on. */
  function FirstFailure(command: Json, regexError: (string, string) -> Option<string>, k: nat): Option<string>
    requires k <= 8
    decreases 8 - k
  {
    if k == 8 then None
    else if Check(command, regexError, k).Some? then Check(command, regexError, k)
    else FirstFailure(command, regexError, k + 1)
  }

  /** The specification of `validateCustomCommand`: the first failing check decides. */
  function Validate(command: Json, regexError: (string, string) -> Option<string>): Validation {
    match FirstFailure(command, regexError, 0)
    case None => Valid
    case Some(e) => Invalid(e)
  }

  /** A command is valid exactly when every check passes, and when check `k`
      is the first to fail its message is the error. */
  lemma {:induction false} FirstFailureDecides(command: Json, regexError: (string, string) -> Option<string>, from: nat, k: nat)
    requires from <= k < 8
    requires forall j :: from <= j < k ==> Check(command, regexError, j).None?
    requires Check(command, regexError, k).Some?
    ensures FirstFailure(command, regexError, from) == Check(command, regexError, k)
    decreases k - from
  {
    if from < k {
      FirstFailureDecides(command, regexError, from + 1, k);
    }
  }

  lemma {:induction false} NoFailure(command: Json, regexError: (string, string) -> Option<string>, from: nat)
    requires from <= 8
    ensures FirstFailure(command, regexError, from).None? <==> forall j :: from <= j < 8 ==> Check(command, regexError, j).None?
    decreases 8 - from
  {
    if from < 8 {
      NoFailure(command, regexError, from + 1);
    }
  }

  /** The ordered contract: valid iff all eight checks pass; otherwise the
      error is the message of the first check that fails. */
  lemma {:induction false} ValidateOrder(command: Json, regexError: (string, string) -> Option<string>, k: nat)
    requires k < 8
    ensures Validate(command, regexError) == Valid <==> forall j :: 0 <= j < 8 ==> Check(command, regexError, j).None?
    ensures (forall j :: 0 <= j < k ==> Check(command, regexError, j).None?) && Check(command, regexError, k).Some? ==>
      Validate(command, regexError) == Invalid(Check(command, regexError, k).value)
  {
    NoFailure(command, regexError, 0);
    if (forall j :: 0 <= j < k ==> Check(command, regexError, j).None?) && Check(command, regexError, k).Some? {
      FirstFailureDecides(command, regexError, 0, k);
    }
  }

  /** A command that passes the seven shape checks is valid exactly when the
      regular-expression engine accepts its pattern with its flag string. */
  lemma {:induction false} ValidIffRegexAccepts(command: Json, regexError: (string, string) -> Option<string>)
    requires forall j :: 0 <= j < 7 ==> Check(command, regexError, j).None?
    ensures Field(command, "searchPattern").Str?
    ensures Validate(command, regexError) == Valid <==>
      regexError(Field(command, "searchPattern").s, FlagString(command)).None?
  {
    ChecksInOrder(command, regexError);
    assert PatternCheck(command).None?;
    NoFailure(command, regexError, 0);
    if regexError(Field(command, "searchPattern").s, FlagString(command)).Some? {
      assert Check(command, regexError, 7).Some?;
    }
  }

  /** The eight checks by number. */
  lemma {:induction false} ChecksInOrder(command: Json, regexError: (string, string) -> Option<string>)
    ensures Check(command, regexError, 0) == ObjectCheck(command)
    ensures Check(command, regexError, 1) == NameCheck(command)
    ensures Check(command, regexError, 2) == LengthCheck(command)
    ensures Check(command, regexError, 3) == CharactersCheck(command)
    ensures Check(command, regexError, 4) == PatternCheck(command)
    ensures Check(command, regexError, 5) == ReplacementCheck(command)
    ensures Check(command, regexError, 6) == FlagsCheck(command)
    ensures Check(command, regexError, 7) == RegexCheck(command, regexError)
  {
  }

  /** Once checks `0..k-1` have passed, check `k` decides if it fails and
      hands over to check `k + 1` if it passes. */
  lemma {:induction false} Stage(command: Json, regexError: (string, string) -> Option<string>, k: nat)
    requires k < 8
    requires FirstFailure(command, regexError, 0) == FirstFailure(command, regexError, k)
    ensures Check(command, regexError, k).Some? ==> Validate(command, regexError) == Invalid(Check(command, regexError, k).value)
    ensures Check(command, regexError, k).None? ==> FirstFailure(command, regexError, 0) == FirstFailure(command, regexError, k + 1)
  {
  }

  /** The loop of `validateCustomCommand` over the six flag fields: the
      message for the first one that is present but not a boolean. */
  method CheckFlagTypes(command: Json) returns (error: Option<string>)
    ensures error == FlagsCheck(command)
  {
    var i := 0;
    while i < |FlagProperties|
      invariant 0 <= i <= 6
      invariant forall j :: 0 <= j < i ==> FlagFieldOk(Field(command, FlagProperties[j]))
    {
      var flagProp := FlagProperties[i];
      var v := Field(command, flagProp);
      if !v.Undefined? && !v.Bool? {
        FirstBadFlagAt(command, 0, i);
        return Some(flagProp + " must be a boolean value");
      }
      i := i + 1;
    }
    return None;
  }

  /** `validateCustomCommand`: the checks in order, each returning early. */
  method ValidateCustomCommand(command: Json, regexError: (string, string) -> Option<string>) returns (result: Validation)
    ensures result == Validate(command, regexError)
  {
    ChecksInOrder(command, regexError);
    Stage(command, regexError, 0);
    if !Truthy(command) || !IsObject(command) {
      return Invalid(MustBeObject);
    }
    Stage(command, regexError, 1);
    var name := Field(command, "name");
    if !Truthy(name) || !name.Str? || |Trim(name.s)| == 0 {
      return Invalid(NameRequired);
    }
    Stage(command, regexError, 2);
    if |name.s| > 50 {
      return Invalid(NameTooLong);
    }
    Stage(command, regexError, 3);
    if !NameCharactersOk(name.s) {
      return Invalid(NameCharacters);
    }
    Stage(command, regexError, 4);
    var pattern := Field(command, "searchPattern");
    if !Truthy(pattern) || !pattern.Str? {
      return Invalid(PatternRequired);
    }
    Stage(command, regexError, 5);
    var replacement := Field(command, "replacement");
    if replacement.Undefined? || !replacement.Str? {
      return Invalid(ReplacementRequired);
    }
    Stage(command, regexError, 6);
    var flagError := CheckFlagTypes(command);
    if flagError.Some? {
      return Invalid(flagError.value);
    }
    Stage(command, regexError, 7);
    var flags := ConvertNamedFlagsToString(command);
    var regexValidation := regexError(pattern.s, flags);
    if regexValidation.Some? {
      return Invalid("Invalid regex pattern: " + regexValidation.value);
    }
    assert FirstFailure(command, regexError, 8) == None;
    return Valid;
  }

  /** The first bad flag is the one the loop stops at. */
  lemma {:induction false} FirstBadFlagAt(command: Json, k: nat, i: nat)
    requires k <= i < 6
    requires forall j :: k <= j < i ==> FlagFieldOk(Field(command, FlagProperties[j]))
    requires !FlagFieldOk(Field(command, FlagProperties[i]))
    ensures FirstBadFlag(command, k) == Some(i)
    decreases i - k
  {
    if k < i {
      FirstBadFlagAt(command, k + 1, i);
    }
  }

  // ---------------------------------------------------------------------
  // getCustomCommands
  // ---------------------------------------------------------------------

  /** The validation `getCustomCommands` applies to each configured command. */
  function Validator(regexError: (string, string) -> Option<string>): Json -> Validation {
    c => Validate(c, regexError)
  }

  /** The configured commands that `validate` accepts, in configuration order. */
  function ValidCommands(commands: seq<Json>, validate: Json -> Validation): (r: seq<Json>)
    ensures |r| <= |commands|
  {
    if commands == [] then []
    else
      var rest := ValidCommands(commands[1..], validate);
      if validate(commands[0]) == Valid then [commands[0]] + rest else rest
  }

  /** The message of rejected command number `number` (counting from 1). */
  function Numbered(number: nat, error: string): string {
    "Command " + NatToString(number) + ": " + error
  }

  /** One message `Command {number}: {error}` per rejected command, in
      order, numbering `commands` from `number` on. */
  function InvalidMessages(commands: seq<Json>, validate: Json -> Validation, number: nat): (r: seq<string>)
    ensures |r| + |ValidCommands(commands, validate)| == |commands|
  {
    if commands == [] then []
    else
      var rest := InvalidMessages(commands[1..], validate, number + 1);
      match validate(commands[0])
      case Valid => rest
      case Invalid(e) => [Numbered(number, e)] + rest
  }

  /** Exactly the commands that validate are kept: every kept command
      validates and comes from the configuration, and every command of the
      configuration that validates is kept. */
  lemma {:induction false} ValidCommandsExact(commands: seq<Json>, validate: Json -> Validation)
    ensures forall c :: c in ValidCommands(commands, validate) <==> c in commands && validate(c) == Valid
  {
    if commands != [] {
      ValidCommandsExact(commands[1..], validate);
      assert commands == [commands[0]] + commands[1..];
    }
  }

  /** Command `i` goes to exactly one of the two lists, by what its
      validation says. */
  lemma {:induction false} SplitStep(commands: seq<Json>, i: nat, regexError: (string, string) -> Option<string>, v: Validation)
    requires i < |commands| && v == Validate(commands[i], regexError)
    ensures ValidCommands(commands[i..], Validator(regexError)) ==
      (if v.Valid? then [commands[i]] else []) + ValidCommands(commands[i + 1..], Validator(regexError))
    ensures InvalidMessages(commands[i..], Validator(regexError), i + 1) ==
      (if v.Valid? then [] else [Numbered(i + 1, v.error)]) + InvalidMessages(commands[i + 1..], Validator(regexError), i + 2)
  {
    assert commands[i..][1..] == commands[i + 1..];
  }

  /** `getCustomCommands`, with the configured list as a parameter: splits
      it into the valid commands and the numbered messages of the invalid
      ones (which the source shows in a warning). */
  method GetCustomCommands(customCommands: seq<Json>, regexError: (string, string) -> Option<string>)
    returns (validCommands: seq<Json>, invalidCommands: seq<string>)
    ensures validCommands == ValidCommands(customCommands, Validator(regexError))
    ensures invalidCommands == InvalidMessages(customCommands, Validator(regexError), 1)
  {
    ghost var validate := Validator(regexError);
    validCommands := [];
    invalidCommands := [];
    var index := 0;
    while index < |customCommands|
      invariant 0 <= index <= |customCommands|
      invariant ValidCommands(customCommands, validate) == validCommands + ValidCommands(customCommands[index..], validate)
      invariant InvalidMessages(customCommands, validate, 1) == invalidCommands + InvalidMessages(customCommands[index..], validate, index + 1)
    {
      var command := customCommands[index];
      var validation := ValidateCustomCommand(command, regexError);
      SplitStep(customCommands, index, regexError, validation);
      if validation.Valid? {
        ConcatAssoc(validCommands, [command], ValidCommands(customCommands[index + 1..], validate));
        validCommands := validCommands + [command];
      } else {
        var message := "Command " + NatToString(index + 1) + ": " + validation.error;
        ConcatAssoc(invalidCommands, [message], InvalidMessages(customCommands[index + 1..], validate, index + 2));
        invalidCommands := invalidCommands + [message];
      }
      index := index + 1;
    }
  }


  // ---------------------------------------------------------------------
  // generateCommandId
  // ---------------------------------------------------------------------

  predicate IsIdChar(c: char) { IsAsciiLower(c) || IsDigit(c) || c == '-' }

  predicate AllIdChars(s: string) {
    forall i :: 0 <= i < |s| ==> IsIdChar(s[i])
  }

  /** `.toLowerCase()`, on ASCII letters. */
  function Lower(s: string): (r: string)
    ensures |r| == |s| && forall i :: 0 <= i < |s| ==> r[i] == ToLowerAscii(s[i])
  {
    if s == [] then [] else [ToLowerAscii(s[0])] + Lower(s[1..])
  }

  /** A character outside `[a-z0-9]` becomes a dash. */
  function DashChar(c: char): char {
    if IsAsciiLower(c) || IsDigit(c) then c else '-'
  }

  /** `.replace(/[^a-z0-9]/g, "-")`. */
  function Dashify(s: string): (r: string)
    ensures |r| == |s|
    ensures forall i :: 0 <= i < |s| ==> r[i] == DashChar(s[i])
  {
    if s == [] then [] else [DashChar(s[0])] + Dashify(s[1..])
  }

  predicate NoDoubleDash(s: string) {
    forall i :: 0 <= i < |s| - 1 ==> !(s[i] == '-' && s[i + 1] == '-')
  }

  /** `.replace(/-+/g, "-")`: a dash followed by another dash is dropped, so
      every run of dashes leaves one. */
  function CollapseDashes(s: string): (r: string)
    ensures |r| <= |s|
    ensures AllIdChars(s) ==> AllIdChars(r)
    ensures s != [] ==> r != [] && r[0] == (if s[0] == '-' then '-' else s[0])
    ensures s != [] ==> r[|r| - 1] == s[|s| - 1]
    ensures NoDoubleDash(r)
  {
    if s == [] then []
    else if |s| >= 2 && s[0] == '-' && s[1] == '-' then CollapseDashes(s[1..])
    else
      [s[0]] + CollapseDashes(s[1..])
  }

  /** `.replace(/^-|-$/g, "")`: one leading and one trailing dash go. */
  function StripDashes(s: string): (r: string)
    ensures |r| <= |s|
    ensures AllIdChars(s) ==> AllIdChars(r)
  {
    var t := if s != [] && s[0] == '-' then s[1..] else s;
    if t != [] && t[|t| - 1] == '-' then t[..|t| - 1] else t
  }

  /** `generateCommandId`. */
  function GenerateCommandId(commandName: string): string {
    StripDashes(CollapseDashes(Dashify(Lower(commandName))))
  }

  /** The id uses only `a-z`, `0-9` and `-`, never two dashes in a row, and
      neither starts nor ends with a dash. */
  lemma {:induction false} CommandIdShape(commandName: string)
    ensures var id := GenerateCommandId(commandName);
      AllIdChars(id)
      && NoDoubleDash(id)
      && (id != [] ==> id[0] != '-' && id[|id| - 1] != '-')
  {
    var d := Dashify(Lower(commandName));
    assert AllIdChars(d);
    var c := CollapseDashes(d);
    var t := if c != [] && c[0] == '-' then c[1..] else c;
    assert NoDoubleDash(t);
    assert t != [] ==> t[0] != '-';
    var id := GenerateCommandId(commandName);
    assert id == if t != [] && t[|t| - 1] == '-' then t[..|t| - 1] else t;
    if t != [] && t[|t| - 1] == '-' && |t| >= 2 {
      assert t[|t| - 2] != '-';
    }
  }

  /** Collapsing is the identity once no two dashes are adjacent. */
  lemma {:induction false} CollapseIdentity(s: string)
    requires NoDoubleDash(s)
    ensures CollapseDashes(s) == s
  {
    if s != [] {
      CollapseIdentity(s[1..]);
      assert [s[0]] + s[1..] == s;
    }
  }

  /** An id is left alone by every step of the pipeline. */
  lemma {:induction false} IdFixedPoint(id: string)
    requires AllIdChars(id)
    requires NoDoubleDash(id) && (id != [] ==> id[0] != '-' && id[|id| - 1] != '-')
    ensures GenerateCommandId(id) == id
  {
    assert Lower(id) == id by {
      forall i | 0 <= i < |id| ensures Lower(id)[i] == id[i] {
        assert IsIdChar(id[i]);
      }
    }
    assert Dashify(id) == id by {
      forall i | 0 <= i < |id| ensures Dashify(id)[i] == id[i] {
        assert IsIdChar(id[i]);
      }
    }
    CollapseIdentity(id);
  }

  /** Generating an id from an id changes nothing. */
  lemma {:induction false} CommandIdIdempotent(commandName: string)
    ensures GenerateCommandId(GenerateCommandId(commandName)) == GenerateCommandId(commandName)
  {
    CommandIdShape(commandName);
    IdFixedPoint(GenerateCommandId(commandName));
  }

  lemma {:induction false} LowerAppend(a: string, b: string)
    ensures Lower(a + b) == Lower(a) + Lower(b)
  {
    assert forall i :: 0 <= i < |a + b| ==> Lower(a + b)[i] == (Lower(a) + Lower(b))[i];
  }

  lemma {:induction false} DashifyAppend(a: string, b: string)
    ensures Dashify(a + b) == Dashify(a) + Dashify(b)
  {
    assert forall i :: 0 <= i < |a + b| ==> Dashify(a + b)[i] == (Dashify(a) + Dashify(b))[i];
  }

  /** Lowercase words are kept by the dash step. */
  lemma {:induction false} DashifyWord(s: string)
    requires forall i :: 0 <= i < |s| ==> IsAsciiLower(s[i])
    ensures Dashify(s) == s
  {
    assert forall i :: 0 <= i < |s| ==> Dashify(s)[i] == s[i];
  }

  /** Lowering ASCII letters gives lowercase letters. */
  lemma {:induction false} LowerLetters(s: string)
    requires forall i :: 0 <= i < |s| ==> IsAsciiLetter(s[i])
    ensures forall i :: 0 <= i < |Lower(s)| ==> IsAsciiLower(Lower(s)[i])
  {
    forall i | 0 <= i < |s| ensures IsAsciiLower(Lower(s)[i]) {
      assert IsAsciiLetter(s[i]);
    }
  }

  /** The first two steps turn the separating space into a dash. */
  lemma {:induction false} SlugTwoWords(a: string, b: string)
    requires forall i :: 0 <= i < |a| ==> IsAsciiLetter(a[i])
    requires forall i :: 0 <= i < |b| ==> IsAsciiLetter(b[i])
    ensures Dashify(Lower(a + " " + b)) == Lower(a) + "-" + Lower(b)
  {
    var la, lb := Lower(a), Lower(b);
    LowerLetters(a);
    LowerLetters(b);
    LowerAppend(a + " ", b);
    LowerAppend(a, " ");
    assert Lower(" ") == " ";
    DashifyAppend(la + " ", lb);
    DashifyAppend(la, " ");
    DashifyWord(la);
    DashifyWord(lb);
    assert Dashify(" ") == "-" by {
      assert DashChar(' ') == '-';
    }
  }

  /** Two dash-free words joined by one dash hold no double dash. */
  lemma {:induction false} JoinedNoDoubleDash(la: string, lb: string)
    requires '-' !in la && lb != [] && lb[0] != '-' && '-' !in lb
    ensures NoDoubleDash(la + "-" + lb)
  {
    var id := la + "-" + lb;
    forall i | 0 <= i < |id| - 1 ensures !(id[i] == '-' && id[i + 1] == '-') {
      if i < |la| {
        assert id[i] == la[i];
      } else if i > |la| {
        assert id[i] == lb[i - |la| - 1];
      } else {
        assert id[i + 1] == lb[0];
      }
    }
  }

  /** A name of two words of ASCII letters separated by one space, such as
      `Extract Numbers`, becomes the two words lowercased and joined by a
      dash, `extract-numbers`. */
  lemma {:induction false} TwoWordId(a: string, b: string)
    requires a != [] && forall i :: 0 <= i < |a| ==> IsAsciiLetter(a[i])
    requires b != [] && forall i :: 0 <= i < |b| ==> IsAsciiLetter(b[i])
    ensures GenerateCommandId(a + " " + b) == Lower(a) + "-" + Lower(b)
  {
    var la, lb := Lower(a), Lower(b);
    var id := la + "-" + lb;
    assert Dashify(Lower(a + " " + b)) == id by {
      SlugTwoWords(a, b);
    }
    assert CollapseDashes(id) == id by {
      LowerLetters(a);
      LowerLetters(b);
      assert '-' !in la && '-' !in lb by {
        assert !IsAsciiLower('-');
      }
      JoinedNoDoubleDash(la, lb);
      CollapseIdentity(id);
    }
    assert StripDashes(id) == id by {
      LowerLetters(a);
      LowerLetters(b);
      assert id[0] == la[0] && id[|id| - 1] == lb[|lb| - 1];
      StripKeeps(id);
    }
  }

  /** A text with no dash at either end is kept by the strip step. */
  lemma {:induction false} StripKeeps(s: string)
    requires s != [] && s[0] != '-' && s[|s| - 1] != '-'
    ensures StripDashes(s) == s
  {
  }

  // ---------------------------------------------------------------------
  // Picker preview
  // ---------------------------------------------------------------------

  /** The preview beside a command in the picker: the command applied to
      the first line of the selected text, cut to 47 characters plus `...`
      when longer than 50, and no preview when the command throws or the
      result equals that line. `commandFunc` is the compiled command:
      `None` when it throws. */
  function PickerPreview(selectedText: string, commandFunc: string -> Option<string>): (preview: Option<string>)
  {
    var firstLine := Split(selectedText)[0];
    match commandFunc(firstLine)
    case None => None
    case Some(transformed) =>
      var p := if |transformed| > 50 then transformed[..47] + "..." else transformed;
      if p == firstLine then None else Some(p)
  }

  /** A preview is at most 50 characters: the transformed first line itself
      when it fits, else its first 47 characters and an ellipsis; never the
      unchanged first line. */
  lemma {:induction false} PickerPreviewProperties(selectedText: string, commandFunc: string -> Option<string>)
    ensures var firstLine := Split(selectedText)[0];
      var preview := PickerPreview(selectedText, commandFunc);
      (preview.Some? ==> |preview.value| <= 50 && preview.value != firstLine && commandFunc(firstLine).Some?)
      && (commandFunc(firstLine).Some? && |commandFunc(firstLine).value| <= 50 && commandFunc(firstLine).value != firstLine
          ==> preview == commandFunc(firstLine))
      && (commandFunc(firstLine).Some? && |commandFunc(firstLine).value| > 50 ==>
          preview.Some? ==> preview.value == commandFunc(firstLine).value[..47] + "...")
  {
  }
}
