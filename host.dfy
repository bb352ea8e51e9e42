/**
  The part of the editor host the transforms touch: positions, selections,
  an editor whose document is seen through its selections, and the
  extension's global key-value state that remembers the last action.
 */
module Host {
  import opened Wrappers

  /** A zero-based line and a character offset within that line. */
  datatype Position = Position(line: nat, character: nat)

  /** A selected range of the document, from `start` to `end`. */
  datatype Selection = Selection(start: Position, end: Position)

  /** The active text editor. `document[i]` is the text that `selections[i]`
      covers, that is `editor.document.getText(editor.selections[i])`. */
  class Editor {
    var selections: seq<Selection>
    var document: seq<string>

    ghost predicate Valid()
      reads this
    {
      |document| == |selections|
    }

    constructor (selections: seq<Selection>, document: seq<string>)
      requires |document| == |selections|
      ensures Valid() && this.selections == selections && this.document == document
    {
      this.selections := selections;
      this.document := document;
    }
  }

  /** `context.globalState`: only its "lastAction" key is used. */
  class GlobalState {
    var lastAction: Option<string>

    constructor (lastAction: Option<string>)
      ensures this.lastAction == lastAction
    {
      this.lastAction := lastAction;
    }
  }
}
