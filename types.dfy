/**
  The shared shapes of the command layer (src/commands/types.ts): the state
  object that number-family commands thread through a run, and the two name
  lists `stringFunction` dispatches on.
 */
module Types {
  import opened Wrappers

  /** `MultiSelectData`: one object is shared by every line of every selection
      of a run. `offset == None` stands for the absent field, the unseeded state. */
  class MultiSelectData {
    var offset: Option<int>

    /** The empty object literal `{}`. */
    constructor ()
      ensures offset == None
    {
      offset := None;
    }
  }

  /** `numberFunctionNames`: the commands that receive the shared state. */
  const NumberFunctionNames: seq<string> := [
    "increment", "decrement", "sequence", "duplicateAndIncrement",
    "duplicateAndDecrement", "incrementFloat", "decrementFloat"
  ]

  /** `functionNamesWithArgument`: the commands that prompt for a number. */
  const FunctionNamesWithArgument: seq<string> := ["chop", "truncate", "prune", "repeat"]

  /** No command is in both lists, so the dispatch of `stringFunction` is unambiguous. */
  lemma {:induction false} NameListsDisjoint(name: string)
    ensures !(name in NumberFunctionNames && name in FunctionNamesWithArgument)
  {
    if name in FunctionNamesWithArgument {
      var k :| 0 <= k < |FunctionNamesWithArgument| && FunctionNamesWithArgument[k] == name;
      assert name[0] in "ctpr";
    }
  }
}
