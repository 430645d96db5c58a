/** Concrete sessions over a five-block document, walking through the
    delete/undo/redo behaviour of the editor's command set step by step. */
module Scenarios {
  import opened Options
  import opened EditorUtils
  import opened Commander
  import opened VisualCommand

  const Button := Component("button", "Button", View("button-preview"), View("button-render"))

  const B0 := NewBlock(Button, 0, 0)
  const B1 := NewBlock(Button, 10, 0)
  const B2 := NewBlock(Button, 20, 0)
  const B3 := NewBlock(Button, 30, 0)
  const B4 := NewBlock(Button, 40, 0)

  const Document := ModelValue(Container(800, 600), Some([B0, B1, B2, B3, B4]))

  /** Blocks 1 and 3 selected. */
  const SelectOneAndThree := FocusView([B1, B3], [B0, B2, B4])

  /** `delete` with two of five blocks selected records one entry and leaves
      the three unselected blocks. */
  lemma ScenarioDelete()
    ensures var a := Delete(NewSession(Document), SelectOneAndThree);
      && |a.queue| == 1 && a.current == 0
      && a.model.blocks == Some([B0, B2, B4])
  {
  }

  /** `undo` after that puts all five blocks back and the cursor at -1;
      `redo` removes the two again and puts the cursor at 0. */
  lemma ScenarioUndoThenRedo()
    ensures var b := Undo(Delete(NewSession(Document), SelectOneAndThree));
      && b.current == -1 && b.model == Document
      && Redo(b).current == 0 && Redo(b).model.blocks == Some([B0, B2, B4])
  {
  }

  /** `undo` on a fresh session raises nothing and changes nothing. */
  lemma ScenarioUndoOnFreshSession()
    ensures Undo(NewSession(Document)) == NewSession(Document)
  {
  }

  /** Delete block 1, delete block 3, undo, delete block 0, undo, redo. The
      last `redo` replays the undone deletion of block 3, so the document
      ends with block 0 back and block 3 gone, although the last edit made
      was to delete block 0 and the deletion of block 3 had been undone. */
  lemma ScenarioUndoneEntryResurfaces()
    ensures var s0 := NewSession(Document);
      var s1 := Delete(s0, FocusView([B1], [B0, B2, B3, B4]));
      var s2 := Delete(s1, FocusView([B3], [B0, B2, B4]));
      var s3 := Undo(s2);
      var s4 := Delete(s3, FocusView([B0], [B2, B3, B4]));
      var s5 := Undo(s4);
      var s6 := Redo(s5);
      && s3.current == 0 && s3.model.blocks == Some([B0, B2, B3, B4])
      && |s4.queue| == 3 && s4.current == 1 && s4.model.blocks == Some([B2, B3, B4])
      && s5.current == 0 && s5.model.blocks == Some([B0, B2, B3, B4])
      && s6.current == 1 && s6.model.blocks == Some([B0, B2, B4])
  {
  }
}
