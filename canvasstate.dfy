/**
 * The drawing canvas's history: the committed operations, oldest first, and
 * the redo stack, whose top is its last element.
 */
module CanvasState {
  import opened Json

  const EXPORT_WIDTH := 600
  const EXPORT_HEIGHT := 200

  /** The operation `clear` commits. */
  const CLEAR_OP: Json := Obj(map["type" := Str("clear")])

  datatype History = History(operations: seq<Json>, redoStack: seq<Json>)

  /** What `exportOps` hands out for saving a drawing. */
  datatype Export = Export(operations: seq<Json>, width: int, height: int)

  function Committed(h: History, op: Json): History {
    History(h.operations + [op], [])
  }

  /** The last operation moved onto the redo stack; nothing happens with no operations. */
  function Undone(h: History): History {
    if |h.operations| == 0 then h
    else History(h.operations[..|h.operations| - 1], h.redoStack + [h.operations[|h.operations| - 1]])
  }

  /** The redo stack's top moved back onto the operations; nothing happens with an empty redo stack. */
  function Redone(h: History): History {
    if |h.redoStack| == 0 then h
    else History(h.operations + [h.redoStack[|h.redoStack| - 1]], h.redoStack[..|h.redoStack| - 1])
  }

  /** Redo takes back an undo, whenever there was something to undo. */
  lemma RedoAfterUndo(h: History)
    requires |h.operations| > 0
    ensures Redone(Undone(h)) == h
  {
    var ops := h.operations;
    assert ops[..|ops| - 1] + [ops[|ops| - 1]] == ops;
    var u := Undone(h);
    assert u.redoStack[..|u.redoStack| - 1] == h.redoStack;
  }

  /** Undo takes back a redo, whenever there was something to redo. */
  lemma UndoAfterRedo(h: History)
    requires |h.redoStack| > 0
    ensures Undone(Redone(h)) == h
  {
    var rs := h.redoStack;
    assert rs[..|rs| - 1] + [rs[|rs| - 1]] == rs;
    var r := Redone(h);
    assert r.operations[..|r.operations| - 1] == h.operations;
  }

  /** Undo and redo only move operations between the two stacks. */
  lemma MovesPreserveOperations(h: History)
    ensures |Undone(h).operations| + |Undone(h).redoStack| == |h.operations| + |h.redoStack|
    ensures |Redone(h).operations| + |Redone(h).redoStack| == |h.operations| + |h.redoStack|
    ensures multiset(Undone(h).operations) + multiset(Undone(h).redoStack) == multiset(h.operations) + multiset(h.redoStack)
    ensures multiset(Redone(h).operations) + multiset(Redone(h).redoStack) == multiset(h.operations) + multiset(h.redoStack)
  {
    if |h.operations| > 0 {
      var ops := h.operations;
      assert ops == ops[..|ops| - 1] + [ops[|ops| - 1]];
    }
    if |h.redoStack| > 0 {
      var rs := h.redoStack;
      assert rs == rs[..|rs| - 1] + [rs[|rs| - 1]];
    }
  }

  /** A clear is an ordinary commit: undoing it gives back the drawing, though not the old redo stack. */
  lemma ClearIsUndoable(h: History)
    ensures Undone(Committed(h, CLEAR_OP)) == History(h.operations, [CLEAR_OP])
  {
    assert (h.operations + [CLEAR_OP])[..|h.operations|] == h.operations;
  }

  /** After a commit there is nothing to redo. */
  lemma CommitThenRedo(h: History, op: Json)
    ensures Redone(Committed(h, op)) == Committed(h, op)
  {
  }

  /** `n` undos in a row. */
  function UndoTimes(h: History, n: nat): History
    decreases n
  {
    if n == 0 then h else Undone(UndoTimes(h, n - 1))
  }

  /** `n` redos in a row. */
  function RedoTimes(h: History, n: nat): History
    decreases n
  {
    if n == 0 then h else RedoTimes(Redone(h), n - 1)
  }

  lemma {:induction false} UndoTimesShape(h: History, n: nat)
    requires n <= |h.operations|
    ensures |UndoTimes(h, n).operations| == |h.operations| - n
    ensures |UndoTimes(h, n).redoStack| == |h.redoStack| + n
  {
    if n > 0 {
      UndoTimesShape(h, n - 1);
    }
  }

  /** Any run of undos that does not overshoot is taken back by as many redos. */
  lemma {:induction false} RedoTimesAfterUndoTimes(h: History, n: nat)
    requires n <= |h.operations|
    ensures RedoTimes(UndoTimes(h, n), n) == h
  {
    if n > 0 {
      var before := UndoTimes(h, n - 1);
      UndoTimesShape(h, n - 1);
      RedoAfterUndo(before);
      assert RedoTimes(UndoTimes(h, n), n) == RedoTimes(before, n - 1);
      RedoTimesAfterUndoTimes(h, n - 1);
    }
  }

  class Canvas {
    var operations: seq<Json>
    var redoStack: seq<Json>

    ghost function State(): History
      reads this
    {
      History(operations, redoStack)
    }

    constructor ()
      ensures State() == History([], [])
    {
      operations, redoStack := [], [];
    }

    method Commit(op: Json)
      modifies this
      ensures State() == Committed(old(State()), op)
    {
      operations := operations + [op];
      redoStack := [];
    }

    method Undo()
      modifies this
      ensures State() == Undone(old(State()))
    {
      if |operations| == 0 {
        return;
      }
      var op := operations[|operations| - 1];
      operations := operations[..|operations| - 1];
      redoStack := redoStack + [op];
    }

    method Redo()
      modifies this
      ensures State() == Redone(old(State()))
    {
      if |redoStack| == 0 {
        return;
      }
      var op := redoStack[|redoStack| - 1];
      redoStack := redoStack[..|redoStack| - 1];
      operations := operations + [op];
    }

    method Clear()
      modifies this
      ensures State() == Committed(old(State()), CLEAR_OP)
    {
      Commit(CLEAR_OP);
    }

    method Reset()
      modifies this
      ensures State() == History([], [])
    {
      operations, redoStack := [], [];
    }

    /** A copy of the operations at the fixed export size; the state is left alone. */
    method ExportOps() returns (e: Export)
      ensures e == Export(operations, EXPORT_WIDTH, EXPORT_HEIGHT)
    {
      e := Export(operations, EXPORT_WIDTH, EXPORT_HEIGHT);
    }

    /** Replaces the drawing with the imported operations and forgets the redo stack. */
    method ImportOps(data: Export)
      modifies this
      ensures State() == History(data.operations, [])
    {
      operations := data.operations;
      redoStack := [];
    }
  }
}
