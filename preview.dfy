/**
  The context-menu preview (src/commands/preview.ts): what a command would
  make of the first line of the selection, cut to a short label. Commands
  that prompt for a number, the duplicate commands and `sequence` show no
  preview, and neither does a blank selection or a transform that throws.
 */
module Preview {
  import opened Wrappers
  import opened Text
  import opened Types
  import opened Registry
  import opened DefaultFunctions
  import Engine

  /** `MAX_PREVIEW_LENGTH`. */
  const MaxPreviewLength: int := 30

  /** `text.substring(0, end)`: a negative end counts as 0 and an end past
      the text as its length. */
  function Substring(text: string, end: int): (r: string)
    ensures end <= 0 ==> r == []
    ensures 0 <= end <= |text| ==> r == text[..end]
    ensures end > |text| ==> r == text
  {
    if end <= 0 then [] else if end >= |text| then text else text[..end]
  }

  /** `truncateForPreview`. */
  function TruncateForPreview(text: string, maxLength: int): string {
    if |text| <= maxLength then text
    else Substring(text, maxLength - 3) + "..."
  }

  /** A text that fits is shown as it is; a longer one is cut to exactly
      `maxLength` characters ending in an ellipsis (three characters when
      `maxLength` is below three), everything before the ellipsis being the
      start of the text. */
  lemma {:induction false} TruncateShape(text: string, maxLength: int)
    ensures |text| <= maxLength ==> TruncateForPreview(text, maxLength) == text
    ensures |text| > maxLength ==>
      var r := TruncateForPreview(text, maxLength);
      |r| == (if maxLength >= 3 then maxLength else 3)
      && r[|r| - 3..] == "..."
      && r[..|r| - 3] == text[..|r| - 3]
  {
    if |text| > maxLength {
      var r := TruncateForPreview(text, maxLength);
      var kept := Substring(text, maxLength - 3);
      assert r == kept + "...";
      assert r[..|r| - 3] == kept && r[|r| - 3..] == "...";
    }
  }

  /** The commands whose preview is always skipped. */
  predicate NoPreview(name: string) {
    name in FunctionNamesWithArgument
    || name == "duplicateAndIncrement" || name == "duplicateAndDecrement" || name == "sequence"
  }

  /** `getTransformationPreview` over the modular registry. A number-family
      transform gets a fresh, empty state object. */
  function TransformationPreview(name: string, selectedText: string, lib: Library): Option<string> {
    if Trim(selectedText) == [] then None
    else if NoPreview(name) then None
    else
      var firstLine := Split(selectedText)[0];
      match Eval(Resolve(Modern, name, 0), lib, firstLine, None).0
      case Ok(transformed) => Some(TruncateForPreview(transformed, MaxPreviewLength))
      case Err(_) => None
  }

  /** `sequence` is the only registry entry that uses the state object. */
  lemma {:induction false} OnlySequenceCounts(name: string)
    ensures Resolve(Modern, name, 0).Count? ==> name == "sequence"
  {
  }

  /** A preview exists exactly for a non-blank selection, a command that is
      not skipped, and a first-line transform that does not throw; it is at
      most thirty characters long. */
  lemma {:induction false} PreviewProperties(name: string, selectedText: string, lib: Library)
    ensures var p := TransformationPreview(name, selectedText, lib);
      && (p.Some? <==>
            Trim(selectedText) != [] && !NoPreview(name)
            && Eval(Resolve(Modern, name, 0), lib, Split(selectedText)[0], None).0.Ok?)
      && (p.Some? ==> |p.value| <= MaxPreviewLength)
  {
    var p := TransformationPreview(name, selectedText, lib);
    if p.Some? {
      var t := Eval(Resolve(Modern, name, 0), lib, Split(selectedText)[0], None).0.value;
      TruncateShape(t, MaxPreviewLength);
    }
  }

  /** The preview shows what running the command writes in place of the
      selection's first line, cut to the label length, whenever the run
      gets through every line. */
  lemma {:induction false} PreviewIsFirstLine(name: string, selectedText: string, lib: Library)
    requires TransformationPreview(name, selectedText, lib).Some?
    ensures var c := Resolve(Modern, name, 0);
      var m := Engine.MapLines(Engine.StringFunc(c, lib, name in NumberNames(Modern)), Split(selectedText), None);
      m.0.Ok? ==> TransformationPreview(name, selectedText, lib) == Some(TruncateForPreview(m.0.value[0], MaxPreviewLength))
  {
    var c := Resolve(Modern, name, 0);
    var shared := name in NumberNames(Modern);
    OnlySequenceCounts(name);
    var lines := Split(selectedText);
    Engine.StringFuncStateless(c, lib, shared);
    Engine.LinesIndependent(Engine.StringFunc(c, lib, shared), lines, None);
  }
}
