/**
  `stringFunction` and `repeatLastAction` of the three command layers
  (src/commands/index.ts, src/commands.ts, src/extension.ts). A run reads
  the text of every selection, splits it at line feeds, applies the
  command's transform to each line, joins the lines back and, when the run
  applies its result, replaces every selection with its new text and
  remembers the command as the last action. Number-family commands share
  one `MultiSelectData` object across every line of every selection.
 */
module Engine {
  import opened Wrappers
  import opened Text
  import opened Numerals
  import opened Types
  import opened Host
  import opened Registry
  import IncrementDecrement
  import Sequence
  import opened DefaultFunctions

  /** What the input box gives a command that takes a number: dismissed,
      text that `Number` reads as NaN, or a number. */
  datatype Prompt = Cancelled | NotANumber | Entered(n: int)

  /** How the promise `stringFunction` returns settles: with `undefined`,
      rejected by a failing transform, or with the replaced texts. */
  datatype Outcome = Undefined | Rejected(failure: Failure) | Resolved(replacedSelections: seq<string>)

  /** A result being built over a list, paired with the state object's offset. */
  type Threaded<T> = (Result<T, Failure>, Option<int>)

  predicate IsDuplicate(name: string) {
    name == "duplicateAndIncrement" || name == "duplicateAndDecrement"
  }

  /** Only the modular layer handles the duplicate commands on the whole
      selection text; the older layers send them through the registry. */
  predicate DuplicatePath(gen: Generation, name: string) {
    gen == Modern && IsDuplicate(name)
  }

  /** `done` in front of a threaded result; an error stays the error. */
  function After<T>(done: seq<T>, res: Threaded<seq<T>>): Threaded<seq<T>> {
    (match res.0
     case Ok(ys) => Ok(done + ys)
     case Err(e) => Err(e), res.1)
  }

  lemma {:induction false} AfterNil<T>(res: Threaded<seq<T>>)
    ensures After([], res) == res
  {
    if res.0.Ok? {
      assert [] + res.0.value == res.0.value;
    }
  }

  lemma {:induction false} AfterAfter<T>(a: seq<T>, b: seq<T>, res: Threaded<seq<T>>)
    ensures After(a, After(b, res)) == After(a + b, res)
  {
    if res.0.Ok? {
      assert a + (b + res.0.value) == (a + b) + res.0.value;
    }
  }

  // ---------------------------------------------------------------------
  // The specification of a run
  // ---------------------------------------------------------------------

  /** `stringFunc` as a run calls it: a line and the state object's offset
      in, the line's result and the offset the call leaves out. */
  type LineFunction = (string, Option<int>) -> Threaded<string>

  /** The `stringFunc` a run builds for a registry entry: a number-family
      command is called with the run's state object, any other on the line
      alone. */
  function StringFunc(c: Command, lib: Library, shared: bool): LineFunction {
    (s: string, offset: Option<int>) =>
      if shared then Eval(c, lib, s, offset) else (Eval(c, lib, s, None).0, offset)
  }

  /** A line function that neither reads nor moves the offset. */
  ghost predicate Stateless(f: LineFunction) {
    forall s, offset :: f(s, offset) == (f(s, None).0, offset)
  }

  /** `textParts.map(stringFunc)`: `f` on each line in order, the offset
      threaded from one call to the next, the first failure ending the map. */
  function MapLines(f: LineFunction, lines: seq<string>, offset: Option<int>): (res: Threaded<seq<string>>)
    ensures res.0.Ok? ==> |res.0.value| == |lines|
    decreases |lines|
  {
    if lines == [] then (Ok([]), offset)
    else
      var first := f(lines[0], offset);
      match first.0
      case Err(e) => (Err(e), first.1)
      case Ok(t) => After([t], MapLines(f, lines[1..], first.1))
  }

  /** The replacement of one selection: its lines mapped and joined again. */
  function SelectionResult(f: LineFunction, text: string, offset: Option<int>): Threaded<string> {
    var m := MapLines(f, Split(text), offset);
    (match m.0
     case Ok(ls) => Ok(Join(ls))
     case Err(e) => Err(e), m.1)
  }

  /** The replacement of every selection in order, the state threaded from
      one selection to the next. */
  function ReplaceAll(f: LineFunction, texts: seq<string>, offset: Option<int>): (res: Threaded<seq<string>>)
    ensures res.0.Ok? ==> |res.0.value| == |texts|
    decreases |texts|
  {
    if texts == [] then (Ok([]), offset)
    else
      var m := SelectionResult(f, texts[0], offset);
      match m.0
      case Err(e) => (Err(e), m.1)
      case Ok(t) => After([t], ReplaceAll(f, texts[1..], m.1))
  }

  /** Each text followed by its shifted copy. */
  function Duplicated(texts: seq<string>, delta: int): (rs: seq<string>)
    ensures |rs| == |texts|
    ensures forall i :: 0 <= i < |texts| ==> rs[i] == texts[i] + IncrementDecrement.Shift(texts[i], delta)
  {
    seq(|texts|, i requires 0 <= i < |texts| => texts[i] + IncrementDecrement.Shift(texts[i], delta))
  }

  /** What a run computes from the selections' texts: nothing when the
      number prompt is dismissed or not a number; the duplicates in the
      modular layer; otherwise the registry's transform over every line of
      every selection, sharing the state for number-family names. */
  function Expected(gen: Generation, name: string, texts: seq<string>, prompt: Prompt, lib: Library): Outcome {
    if name in FunctionNamesWithArgument && !prompt.Entered? then Undefined
    else if DuplicatePath(gen, name) then
      Resolved(Duplicated(texts, if name == "duplicateAndIncrement" then 1 else -1))
    else
      var value := if name in FunctionNamesWithArgument then prompt.n else 0;
      match ReplaceAll(StringFunc(Resolve(gen, name, value), lib, name in NumberNames(gen)), texts, None).0
      case Ok(rs) => Resolved(rs)
      case Err(f) => Rejected(f)
  }

  /** What the caller sees: the original entry point's promise carries no
      value even when it has edited. */
  function Settled(gen: Generation, o: Outcome): Outcome {
    if gen == Original && o.Resolved? then Undefined else o
  }

  /** Whether a run edits: it has replacements, and it was asked to apply
      them (the original entry point always applies). */
  predicate Applies(gen: Generation, shouldApply: bool, o: Outcome) {
    o.Resolved? && (shouldApply || gen == Original)
  }

  // ---------------------------------------------------------------------
  // Properties of the specification
  // ---------------------------------------------------------------------

  /** Only `sequence` looks at the offset it is given. */
  lemma {:induction false} EvalIgnoresOffset(c: Command, lib: Library, s: string, offset: Option<int>)
    requires !c.Count?
    ensures Eval(c, lib, s, offset).0 == Eval(c, lib, s, None).0
  {
  }

  /** The line function of any command but `sequence`, and of every command
      called without the state object, leaves the offset alone and gives
      each line the command's own result on it. */
  lemma {:induction false} StringFuncStateless(c: Command, lib: Library, shared: bool)
    requires !shared || !c.Count?
    ensures Stateless(StringFunc(c, lib, shared))
    ensures forall s :: StringFunc(c, lib, shared)(s, None).0 == Eval(c, lib, s, None).0
  {
    var f := StringFunc(c, lib, shared);
    forall s, offset
      ensures f(s, offset) == (f(s, None).0, offset)
      ensures f(s, None).0 == Eval(c, lib, s, None).0
    {
      EvalEffects(c, lib, s, offset);
      if shared {
        EvalIgnoresOffset(c, lib, s, offset);
        EvalEffects(c, lib, s, None);
      }
    }
  }

  /** A line function that does not use the state treats every line on its
      own: the map succeeds exactly when every line's call does, each line's
      result is that call's, and the offset is left alone. */
  lemma {:induction false} LinesIndependent(f: LineFunction, lines: seq<string>, offset: Option<int>)
    requires Stateless(f)
    ensures MapLines(f, lines, offset).1 == offset
    ensures MapLines(f, lines, offset).0.Ok? <==> forall k :: 0 <= k < |lines| ==> f(lines[k], None).0.Ok?
    ensures MapLines(f, lines, offset).0.Ok? ==>
      forall k :: 0 <= k < |lines| ==> MapLines(f, lines, offset).0.value[k] == f(lines[k], None).0.value
    decreases |lines|
  {
    if lines != [] {
      var first := f(lines[0], offset);
      assert first == (f(lines[0], None).0, offset);
      LinesIndependent(f, lines[1..], offset);
      if first.0.Ok? {
        var rest := MapLines(f, lines[1..], offset);
        if rest.0.Ok? {
          forall k | 0 <= k < |lines|
            ensures MapLines(f, lines, offset).0.value[k] == f(lines[k], None).0.value
          {
            if k > 0 { assert lines[1..][k - 1] == lines[k]; }
          }
        } else {
          var k :| 0 <= k < |lines[1..]| && !f(lines[1..][k], None).0.Ok?;
          assert lines[1..][k] == lines[k + 1];
        }
      }
    }
  }

  /** The unpadded pass over two lines joined by a line feed is the pass
      over the first, the line feed, and the pass over the second continuing
      from where the first left the offset. */
  lemma {:induction false} PassLines(a: string, b: string, offset: Option<int>, render: int -> string)
    ensures var first := Sequence.Pass(Scan(a), offset, render);
      var second := Sequence.Pass(Scan(b), first.1, render);
      Sequence.Pass(Scan(a + "\n" + b), offset, render) == (first.0 + "\n" + second.0, second.1)
  {
    var first := Sequence.Pass(Scan(a), offset, render);
    ScanLines(a, b);
    var lf: seq<Piece> := [Lit('\n')];
    assert Sequence.Pass(lf, first.1, render) == ("\n", first.1) by {
      assert lf[1..] == [];
      assert ['\n'] + "" == "\n";
    }
    Sequence.PassAppend(Scan(a), lf, offset, render);
    Sequence.PassAppend(Scan(a) + lf, Scan(b), offset, render);
  }

  /** `Join` of a first line and the rest. */
  lemma {:induction false} JoinCons(x: string, ys: seq<string>)
    requires |ys| >= 1
    ensures Join([x] + ys) == x + "\n" + Join(ys)
  {
    assert ([x] + ys)[1..] == ys;
  }

  /** The unpadded `sequence` over the lines of one text numbers every match
      of the whole text as one run: splitting at line feeds changes nothing,
      because no match spans a line feed. */
  lemma {:induction false} SequenceAcrossLines(lib: Library, lines: seq<string>, offset: Option<int>)
    requires |lines| >= 1
    ensures var m := MapLines(StringFunc(Count(false), lib, true), lines, offset);
      var p := Sequence.Pass(Scan(Join(lines)), offset, Sequence.Renderer(0));
      m.0.Ok? && Join(m.0.value) == p.0 && m.1 == p.1
    decreases |lines|
  {
    var f := StringFunc(Count(false), lib, true);
    var first := Sequence.Pass(Scan(lines[0]), offset, Sequence.Renderer(0));
    assert f(lines[0], offset) == (Ok(first.0), first.1);
    var m := MapLines(f, lines[1..], first.1);
    assert MapLines(f, lines, offset) == After([first.0], m);
    if |lines| == 1 {
      assert m == (Ok([]), first.1);
    } else {
      SequenceAcrossLines(lib, lines[1..], first.1);
      PassLines(lines[0], Join(lines[1..]), offset, Sequence.Renderer(0));
      JoinCons(first.0, m.0.value);
    }
  }

  /** The unpadded `sequence` over several selections continues one count
      through all of them, as if they were a single text with a line feed
      between selections. */
  lemma {:induction false} SequenceAcrossSelections(lib: Library, texts: seq<string>, offset: Option<int>)
    requires |texts| >= 1
    ensures var r := ReplaceAll(StringFunc(Count(false), lib, true), texts, offset);
      var p := Sequence.Pass(Scan(Join(texts)), offset, Sequence.Renderer(0));
      r.0.Ok? && Join(r.0.value) == p.0 && r.1 == p.1
    decreases |texts|
  {
    var f := StringFunc(Count(false), lib, true);
    var first := Sequence.Pass(Scan(texts[0]), offset, Sequence.Renderer(0));
    assert SelectionResult(f, texts[0], offset) == (Ok(first.0), first.1) by {
      SequenceAcrossLines(lib, Split(texts[0]), offset);
      JoinSplit(texts[0]);
    }
    var r := ReplaceAll(f, texts[1..], first.1);
    assert ReplaceAll(f, texts, offset) == After([first.0], r);
    if |texts| == 1 {
      assert r == (Ok([]), first.1);
    } else {
      SequenceAcrossSelections(lib, texts[1..], first.1);
      PassLines(texts[0], Join(texts[1..]), offset, Sequence.Renderer(0));
      JoinCons(first.0, r.0.value);
    }
  }

  /** The older layers send the duplicate commands through the line split,
      so a multi-line selection is duplicated line by line; the modular layer
      appends one shifted copy of the whole text. */
  lemma {:induction false} DuplicatesPerLine(gen: Generation, name: string, text: string, prompt: Prompt, lib: Library)
    requires IsDuplicate(name)
    ensures var delta := if name == "duplicateAndIncrement" then 1 else -1;
      Expected(gen, name, [text], prompt, lib) ==
        if gen == Modern then Resolved([text + IncrementDecrement.Shift(text, delta)])
        else Resolved([Join(Duplicated(Split(text), delta))])
  {
    var delta := if name == "duplicateAndIncrement" then 1 else -1;
    DuplicateEntries(gen, name);
    if gen != Modern {
      var f := StringFunc(DuplicateShift(delta), lib, true);
      DuplicateLines(lib, delta, text);
      assert ReplaceAll(f, [text], None) == After([Join(Duplicated(Split(text), delta))], ReplaceAll(f, [], None));
    }
  }

  /** Through the line split, `duplicateAndIncrement`/`Decrement` duplicate
      each line of a selection on its own. */
  lemma {:induction false} DuplicateLines(lib: Library, delta: int, text: string)
    ensures SelectionResult(StringFunc(DuplicateShift(delta), lib, true), text, None)
         == (Ok(Join(Duplicated(Split(text), delta))), None)
  {
    var c := DuplicateShift(delta);
    var f := StringFunc(c, lib, true);
    var lines := Split(text);
    StringFuncStateless(c, lib, true);
    LinesIndependent(f, lines, None);
    var m := MapLines(f, lines, None);
    assert m.0.value == Duplicated(lines, delta);
  }

  // ---------------------------------------------------------------------
  // The run
  // ---------------------------------------------------------------------

  /** `textParts.map((part) => stringFunc(part)).join("\n")` for one
      selection; `data` is the run's state object, whose offset each call
      leaves where the call says. */
  method MapSelection(stringFunc: LineFunction, text: string, data: MultiSelectData)
    returns (r: Result<string, Failure>)
    modifies data
    ensures (r, data.offset) == SelectionResult(stringFunc, text, old(data.offset))
  {
    var textParts := Split(text);
    ghost var total := MapLines(stringFunc, textParts, data.offset);
    var mapped: seq<string> := [];
    var i := 0;
    assert textParts[0..] == textParts;
    AfterNil(total);
    while i < |textParts|
      invariant 0 <= i <= |textParts|
      invariant total == After(mapped, MapLines(stringFunc, textParts[i..], data.offset))
    {
      var part := stringFunc(textParts[i], data.offset);
      data.offset := part.1;
      assert textParts[i..][1..] == textParts[i + 1..];
      match part.0 {
        case Err(e) =>
          r := Err(e);
          return;
        case Ok(t) =>
          AfterAfter(mapped, [t], MapLines(stringFunc, textParts[i + 1..], data.offset));
          mapped := mapped + [t];
      }
      i := i + 1;
    }
    assert mapped + [] == mapped;
    r := Ok(Join(mapped));
  }

  /** The loop of `stringFunction` over the editor's selections: each
      selection's text replaced line by line, under one state object created
      for the run, the entries keyed by selection index. */
  method ReplaceSelections(stringFunc: LineFunction, selections: seq<Selection>, texts: seq<string>)
    returns (res: Result<seq<string>, Failure>, selectionMap: map<nat, IncrementDecrement.MapEntry>)
    requires |selections| == |texts|
    ensures res == ReplaceAll(stringFunc, texts, None).0
    ensures res.Ok? ==> forall i: nat :: i in selectionMap <==> i < |texts|
    ensures res.Ok? ==> forall i :: 0 <= i < |texts| ==>
      selectionMap[i] == IncrementDecrement.MapEntry(selections[i], res.value[i])
  {
    var multiselectData := new MultiSelectData();
    ghost var total := ReplaceAll(stringFunc, texts, None);
    selectionMap := map[];
    var replacedSelections: seq<string> := [];
    var index := 0;
    assert texts[0..] == texts;
    AfterNil(total);
    while index < |selections|
      invariant 0 <= index <= |texts| && |replacedSelections| == index
      invariant forall i: nat :: i in selectionMap <==> i < index
      invariant forall i :: 0 <= i < index ==>
        selectionMap[i] == IncrementDecrement.MapEntry(selections[i], replacedSelections[i])
      invariant total == After(replacedSelections, ReplaceAll(stringFunc, texts[index..], multiselectData.offset))
    {
      var replaced := MapSelection(stringFunc, texts[index], multiselectData);
      assert texts[index..][1..] == texts[index + 1..];
      match replaced {
        case Err(e) =>
          return Err(e), selectionMap;
        case Ok(t) =>
          AfterAfter(replacedSelections, [t], ReplaceAll(stringFunc, texts[index + 1..], multiselectData.offset));
          replacedSelections := replacedSelections + [t];
          selectionMap := selectionMap[index := IncrementDecrement.MapEntry(selections[index], t)];
      }
      index := index + 1;
    }
    assert replacedSelections + [] == replacedSelections;
    res := Ok(replacedSelections);
  }

  /** `editor.edit`: every entry of the map replaces the text of its
      selection; the selections themselves stay. */
  method EditSelections(editor: Editor, selectionMap: map<nat, IncrementDecrement.MapEntry>, replaced: seq<string>)
    requires editor.Valid() && |replaced| == |editor.selections|
    requires forall i :: 0 <= i < |replaced| ==> i in selectionMap && selectionMap[i].replaced == replaced[i]
    modifies editor
    ensures editor.document == replaced && editor.selections == old(editor.selections)
  {
    var k := 0;
    while k < |editor.selections|
      invariant 0 <= k <= |editor.selections| && |editor.document| == |replaced|
      invariant editor.selections == old(editor.selections)
      invariant forall j :: 0 <= j < k ==> editor.document[j] == replaced[j]
    {
      editor.document := editor.document[k := selectionMap[k].replaced];
      k := k + 1;
    }
  }

  /** The first half of `stringFunction`, which changes nothing: the prompt
      for a command that takes a number, the choice of transform, and the
      replacement of every selection, keyed by selection index. */
  method Replacements(gen: Generation, commandName: string, editor: Editor, prompt: Prompt, lib: Library)
    returns (expected: Outcome, selectionMap: map<nat, IncrementDecrement.MapEntry>)
    requires editor.Valid()
    ensures expected == Expected(gen, commandName, editor.document, prompt, lib)
    ensures expected.Resolved? ==>
      && |expected.replacedSelections| == |editor.document|
      && (forall i: nat :: i in selectionMap <==> i < |editor.document|)
      && (forall i :: 0 <= i < |editor.document| ==>
            selectionMap[i] == IncrementDecrement.MapEntry(editor.selections[i], expected.replacedSelections[i]))
  {
    var texts := editor.document;
    var value := 0;
    if commandName in FunctionNamesWithArgument {
      match prompt {
        case Cancelled =>
          return Undefined, map[];
        case NotANumber =>
          return Undefined, map[];
        case Entered(n) =>
          value := n;
      }
    }
    var stringFunc := StringFunc(Resolve(gen, commandName, value), lib, commandName in NumberNames(gen));
    var replacedSelections: seq<string>;
    if DuplicatePath(gen, commandName) {
      var operation := if commandName == "duplicateAndIncrement" then IncrementDecrement.Increment else IncrementDecrement.Decrement;
      selectionMap, replacedSelections :=
        IncrementDecrement.HandleDuplicateAndIncrementDecrement(editor, editor.selections, operation);
      assert replacedSelections == Duplicated(texts, if commandName == "duplicateAndIncrement" then 1 else -1);
    } else {
      var res;
      res, selectionMap := ReplaceSelections(stringFunc, editor.selections, texts);
      if res.Err? {
        return Rejected(res.error), selectionMap;
      }
      replacedSelections := res.value;
    }
    expected := Resolved(replacedSelections);
  }

  /** `stringFunction`. A missing editor ends the run with `undefined`. A
      dismissed or non-numeric prompt for a command that takes a number does
      too, and changes nothing. A failing transform rejects the run before
      anything is edited. Otherwise every selection's replacement is
      computed as `Expected` says and, when the run applies, the editor's
      texts become the replacements, duplicated selections are moved onto
      the copies, and the command becomes the last action. */
  method Run(gen: Generation, commandName: string, editor: Editor?, state: GlobalState,
             shouldApply: bool, prompt: Prompt, lib: Library)
    returns (outcome: Outcome)
    requires editor != null ==> editor.Valid()
    modifies editor, state
    ensures editor == null ==> outcome == Undefined && unchanged(state)
    ensures editor != null ==> editor.Valid()
    ensures editor != null ==>
      outcome == Settled(gen, Expected(gen, commandName, old(editor.document), prompt, lib))
    ensures editor != null && Applies(gen, shouldApply, Expected(gen, commandName, old(editor.document), prompt, lib)) ==>
      && editor.document == Expected(gen, commandName, old(editor.document), prompt, lib).replacedSelections
      && state.lastAction == Some(commandName)
      && |editor.selections| == |old(editor.selections)|
      && (forall i :: 0 <= i < |editor.selections| ==>
            editor.selections[i] ==
              if DuplicatePath(gen, commandName) then
                var p := old(editor.selections)[i].end;
                Selection(p, IncrementDecrement.Advance(p, old(editor.document)[i]))
              else old(editor.selections)[i])
    ensures editor != null && !Applies(gen, shouldApply, Expected(gen, commandName, old(editor.document), prompt, lib)) ==>
      unchanged(editor) && unchanged(state)
  {
    if editor == null {
      return Undefined;
    }
    var expected, selectionMap := Replacements(gen, commandName, editor, prompt, lib);
    if !expected.Resolved? {
      return expected;
    }
    var texts := editor.document;
    var replacedSelections := expected.replacedSelections;
    if shouldApply || gen == Original {
      EditSelections(editor, selectionMap, replacedSelections);
      if DuplicatePath(gen, commandName) {
        editor.selections := IncrementDecrement.UpdateSelectionsAfterDuplicate(|texts|, selectionMap, texts);
      }
      state.lastAction := Some(commandName);
    }
    outcome := if gen == Original then Undefined else Resolved(replacedSelections);
  }

  /** The `repeatLastAction` command: runs the remembered command again and
      applies it, with the same effect on the editor as running it by name;
      with no remembered command, or an empty one, it does nothing. In every
      case the remembered command stays what it was. */
  method RepeatLastAction(gen: Generation, editor: Editor?, state: GlobalState, prompt: Prompt, lib: Library)
    returns (outcome: Outcome)
    requires editor != null ==> editor.Valid()
    modifies editor, state
    ensures state.lastAction == old(state.lastAction)
    ensures old(state.lastAction) == None || old(state.lastAction) == Some("") ==>
      outcome == Undefined && (editor != null ==> unchanged(editor)) && unchanged(state)
    ensures old(state.lastAction).Some? && old(state.lastAction).value != "" && editor == null ==>
      outcome == Undefined && unchanged(state)
    ensures old(state.lastAction).Some? && old(state.lastAction).value != "" && editor != null ==>
      outcome == Settled(gen, Expected(gen, old(state.lastAction).value, old(editor.document), prompt, lib))
    ensures old(state.lastAction).Some? && old(state.lastAction).value != "" && editor != null ==>
      var name := old(state.lastAction).value;
      var expected := Expected(gen, name, old(editor.document), prompt, lib);
      && editor.Valid()
      && (Applies(gen, true, expected) ==>
            && editor.document == expected.replacedSelections
            && |editor.selections| == |old(editor.selections)|
            && (forall i :: 0 <= i < |editor.selections| ==>
                  editor.selections[i] ==
                    if DuplicatePath(gen, name) then
                      var p := old(editor.selections)[i].end;
                      Selection(p, IncrementDecrement.Advance(p, old(editor.document)[i]))
                    else old(editor.selections)[i]))
      && (!Applies(gen, true, expected) ==> unchanged(editor))
  {
    var lastAction := state.lastAction;
    if lastAction.Some? && lastAction.value != "" {
      outcome := Run(gen, lastAction.value, editor, state, true, prompt, lib);
    } else {
      outcome := Undefined;
    }
  }
}
