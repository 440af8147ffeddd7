/** `MementoCaretaker`: a bare pair of snapshot stacks. */
module Memento {
  import opened History

  class MementoCaretaker {
    var undoStack: seq<HistorySnapshot>
    var redoStack: seq<HistorySnapshot>

    /** Both stacks start empty. */
    constructor ()
      ensures undoStack == [] && redoStack == []
    {
      undoStack := [];
      redoStack := [];
    }

    /**
     * `clear_redo()`: the redo stack ends empty and the undo stack is untouched;
     * the new state depends only on the undo stack, so a second call changes nothing.
     */
    method ClearRedo()
      modifies this
      ensures redoStack == [] && undoStack == old(undoStack)
    {
      redoStack := [];
    }
  }
}
