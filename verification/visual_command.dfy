/** The editor's document commands (src/packages/utils/visual.command.tsx):
    a command engine with `delete` registered next to the built-ins, and the
    three operations the host calls, `undo`, `redo` and `delete`.

    `delete` reads, when invoked, the document's blocks (or [] when it has
    none) and the blocks the selection leaves out. Its redo sets the document
    to the latter and its undo sets it back to the former. It does not opt
    out of recording, so every invocation is recorded, even one with nothing
    selected. */
module VisualCommand {
  import opened Options
  import opened EditorUtils
  import opened Commander

  const DeleteCommand := Command("delete", ["backspace", "delete", "ctrl+d"], None,
                                 Capture(Some(DocumentBlocks), UnfocusedBlocks))

  /** The commands of a document-command session, which never change after
      set-up: the engine is private to the session. */
  function SessionCommands(): map<string, Command>
  {
    map["undo" := UndoCommand, "redo" := RedoCommand, "delete" := DeleteCommand]
  }

  ghost predicate IsSession(e: Editor)
  {
    CursorInRange(e) && e.commands == SessionCommands()
  }

  /** The cursor is on the last entry: nothing has been undone since the
      latest recorded edit. */
  predicate AtHead(e: Editor)
  {
    e.current == |e.queue| - 1
  }

  /** Sets up the session over document `model`: a fresh engine with
      `delete` registered and recording. */
  function NewSession(model: ModelValue): (e: Editor)
    ensures IsSession(e)
    ensures e.current == -1 && e.queue == [] && e.model == model
    ensures e.commands.Keys == {"undo", "redo", "delete"}
    ensures Records(e.commands["delete"])
  {
    var r := Register(Init(model), DeleteCommand);
    assert r.commands == SessionCommands();
    r
  }

  /** The built-ins read nothing from the selection; they are given an empty
      one. */
  const NoSelection := FocusView([], [])

  lemma SessionIsWellFormed(e: Editor)
    requires IsSession(e)
    ensures Valid(e)
  {
  }

  /** The host's `undo`. */
  function Undo(e: Editor): (r: Editor)
    requires IsSession(e)
    ensures IsSession(r) && r.queue == e.queue
    ensures e.current == -1 ==> r == e
    ensures e.current >= 0 ==>
      && r.current == e.current - 1
      && r.model == match e.queue[e.current].undo
                    case Some(effect) => e.model.(blocks := Some(effect.blocks))
                    case None => e.model
  {
    SessionIsWellFormed(e);
    Dispatch(e, "undo", NoSelection).value
  }

  /** The host's `redo`. */
  function Redo(e: Editor): (r: Editor)
    requires IsSession(e)
    ensures IsSession(r) && r.queue == e.queue
    ensures AtHead(e) ==> r == e
    ensures !AtHead(e) ==>
      && r.current == e.current + 1
      && r.model == e.model.(blocks := Some(e.queue[e.current + 1].redo.blocks))
  {
    SessionIsWellFormed(e);
    Dispatch(e, "redo", NoSelection).value
  }

  /** The host's `delete`, with `view` the selection at the moment of the
      call. It records exactly one entry, whose undo restores the blocks the
      document had (or [] when it had none) and whose redo keeps only the
      blocks left out of the selection, and it applies that redo at once. */
  function Delete(e: Editor, view: FocusView): (r: Editor)
    requires IsSession(e)
    ensures IsSession(r)
    ensures r.queue == e.queue + [Entry(Some(UpdateBlocks(e.model.blocks.GetOr([]))), UpdateBlocks(view.unFocus))]
    ensures r.current == e.current + 1
    ensures r.model == e.model.(blocks := Some(view.unFocus))
    ensures AtHead(e) ==> AtHead(r)
  {
    SessionIsWellFormed(e);
    Dispatch(e, "delete", view).value
  }

  /** Each of the host's operations is the engine's command of the same name,
      invoked with nothing but the host's present state. `undo` and `redo`
      do not depend on the selection at all, and `delete` depends on it only
      through the blocks it leaves out. */
  lemma FacadeDispatchesByName(e: Editor, view: FocusView, otherFocus: seq<Block>)
    requires IsSession(e)
    ensures Valid(e)
    ensures Dispatch(e, "undo", view) == Success(Undo(e))
    ensures Dispatch(e, "redo", view) == Success(Redo(e))
    ensures Delete(e, view) == Delete(e, FocusView(otherFocus, view.unFocus))
  {
  }

  /** `delete` is recorded even when nothing is selected; then it leaves the
      blocks as they are and only grows the history. */
  lemma DeleteWithNothingSelected(e: Editor, blocks: seq<Block>)
    requires IsSession(e) && e.model.blocks == Some(blocks)
    ensures var r := Delete(e, FocusView([], blocks));
      && r.model == e.model
      && |r.queue| == |e.queue| + 1
      && r.current == e.current + 1
  {
  }

  /** With nothing undone, `delete` then `undo` puts back the document's
      blocks and the cursor. A document without a block list comes back
      with an empty one. */
  lemma DeleteThenUndoRestores(e: Editor, view: FocusView)
    requires IsSession(e) && AtHead(e)
    ensures var r := Undo(Delete(e, view));
      && r.current == e.current
      && r.model == e.model.(blocks := Some(e.model.blocks.GetOr([])))
      && (e.model.blocks.Some? ==> r.model == e.model)
  {
  }

  /** With nothing undone, `delete`, `undo`, `redo` ends exactly where the
      `delete` alone did. */
  lemma DeleteUndoRedoReapplies(e: Editor, view: FocusView)
    requires IsSession(e) && AtHead(e)
    ensures Redo(Undo(Delete(e, view))) == Delete(e, view)
  {
  }

  /** After an undo from any entry, `delete` is recorded at the end of the
      history, behind the undone entry, and an immediate `undo` then applies
      the undone entry's undo action, not the one of the `delete` just made. */
  lemma UndoAfterUndoneDeleteHitsStaleEntry(e: Editor, view: FocusView)
    requires IsSession(e) && e.current >= 0
    ensures var u := Undo(e);
      var r := Undo(Delete(u, view));
      && r.current == e.current - 1
      && r.model == match e.queue[e.current].undo
                    case Some(effect) => u.model.(blocks := Some(effect.blocks))
                    case None => u.model.(blocks := Some(view.unFocus))
  {
  }

  /** An operation the host can call. */
  datatype Op = UndoOp | RedoOp | DeleteOp(view: FocusView)

  function Apply(e: Editor, op: Op): (r: Editor)
    requires IsSession(e)
    ensures IsSession(r)
  {
    match op
    case UndoOp => Undo(e)
    case RedoOp => Redo(e)
    case DeleteOp(view) => Delete(e, view)
  }

  /** Runs the host's calls `ops` in order. */
  function Replay(e: Editor, ops: seq<Op>): (r: Editor)
    requires IsSession(e)
    ensures IsSession(r)
    decreases |ops|
  {
    if |ops| == 0 then e else Replay(Apply(e, ops[0]), ops[1..])
  }

  function CountDeletes(ops: seq<Op>): nat
  {
    if |ops| == 0 then 0 else (if ops[0].DeleteOp? then 1 else 0) + CountDeletes(ops[1..])
  }

  /** However the host's calls interleave, the history only grows at its
      end: every earlier entry stays where it was, unchanged, and there is
      one new entry per `delete`. */
  lemma {:induction false} ReplayOnlyAppends(e: Editor, ops: seq<Op>)
    requires IsSession(e)
    ensures e.queue <= Replay(e, ops).queue
    ensures |Replay(e, ops).queue| == |e.queue| + CountDeletes(ops)
    decreases |ops|
  {
    if |ops| > 0 {
      var next := Apply(e, ops[0]);
      ReplayOnlyAppends(next, ops[1..]);
    }
  }

  /** From a fresh session, `undo` and `redo` alone never change anything. */
  lemma {:induction false} HistoryWalksOnEmptyHistoryAreNoOps(model: ModelValue, ops: seq<Op>)
    requires forall i :: 0 <= i < |ops| ==> !ops[i].DeleteOp?
    ensures Replay(NewSession(model), ops) == NewSession(model)
    decreases |ops|
  {
    if |ops| > 0 {
      var s := NewSession(model);
      assert Apply(s, ops[0]) == s;
      HistoryWalksOnEmptyHistoryAreNoOps(model, ops[1..]);
    }
  }
}
