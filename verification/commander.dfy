/** The command engine of the editor (src/packages/plugins/command.plugin.ts):
    a registry of named commands and a linear undo/redo history.

    The history is a `queue` of recorded entries and a cursor `current` on
    the last applied one (-1 when none is applied). Invoking a command runs
    its `execute`, which hands back a `redo` action and possibly an `undo`
    action; unless the command opted out of recording, that pair is appended
    to the queue and the cursor moves forward; then `redo` runs once. The
    built-in commands `undo` and `redo` move the cursor over the queue.

    The queue is append-only: recording never cuts the entries after the
    cursor, so after an undo a new edit is appended behind the undone
    entries and the cursor lands on an older entry, not on the new one.
    This is modelled as the engine behaves (see `RecordAfterUndoLeavesCursorOnStaleEntry`).

    Actions are closures in the engine. Here the only action an entry holds
    is the host's block-list update, and the state the host owns (the
    document) is part of the record, so every step is a pure function. */
module Commander {
  import opened Options
  import opened EditorUtils

  /** The effect of an undo or redo action: the host's `updateBlocks`,
      which replaces the document's block list. */
  datatype Effect = UpdateBlocks(blocks: seq<Block>)

  /** One recorded edit. */
  datatype Entry = Entry(undo: Option<Effect>, redo: Effect)

  /** The selection as the host presents it when a command is invoked. */
  datatype FocusView = FocusView(focus: seq<Block>, unFocus: seq<Block>)

  /** A value an `execute` reads from the host at invocation time. */
  datatype Source =
    | DocumentBlocks   // the document's block list, or [] when it has none
    | UnfocusedBlocks  // the blocks the current selection leaves out

  /** What a command's `execute` hands back when invoked. The built-ins
      return a `redo` that walks the history; an editing command returns a
      block-list update for `redo`, and possibly one for `undo`, built from
      values it reads from the host. */
  datatype Execute =
    | HistoryBack
    | HistoryForward
    | Capture(undo: Option<Source>, redo: Source)

  /** A command descriptor. `keyboard` is advisory shortcut text that nothing
      here interprets; `followQueue` left out counts as recording. */
  datatype Command = Command(name: string, keyboard: seq<string>, followQueue: Option<bool>, execute: Execute)

  /** The engine's state together with the document its actions edit. */
  datatype Editor = Editor(current: int, queue: seq<Entry>, commands: map<string, Command>, model: ModelValue)

  datatype Error = UnknownCommand(name: string)

  predicate Records(c: Command)
  {
    c.followQueue != Some(false)
  }

  /** A history walk is only ever registered with recording switched off; a
      recorded walk has no counterpart among the entries modelled here. */
  predicate WellFormed(c: Command)
  {
    c.execute.Capture? || !Records(c)
  }

  /** Every command is filed under its own name and is well formed. */
  ghost predicate WellFormedCommands(commands: map<string, Command>)
  {
    forall name :: name in commands ==> commands[name].name == name && WellFormed(commands[name])
  }

  /** The cursor is -1 or the index of an entry. */
  predicate CursorInRange(e: Editor)
  {
    -1 <= e.current < |e.queue|
  }

  ghost predicate Valid(e: Editor)
  {
    CursorInRange(e) && WellFormedCommands(e.commands)
  }

  /** Applies an action's effect to the document; nothing else changes. */
  function Perform(e: Editor, effect: Effect): Editor
  {
    e.(model := e.model.(blocks := Some(effect.blocks)))
  }

  /** The value `source` denotes when read from the host right now. */
  function Read(e: Editor, view: FocusView, source: Source): seq<Block>
  {
    match source
    case DocumentBlocks => e.model.blocks.GetOr([])
    case UnfocusedBlocks => view.unFocus
  }

  /** The entry an editing command's `execute` builds from the host's present
      state. */
  function Captured(e: Editor, view: FocusView, undo: Option<Source>, redo: Source): Entry
  {
    Entry(if undo.Some? then Some(UpdateBlocks(Read(e, view, undo.value))) else None,
          UpdateBlocks(Read(e, view, redo)))
  }

  /** An entry captured with the document's blocks as its undo takes the
      document back, from whatever its redo made of it, to the blocks read
      when the command was invoked; a document that had no block list gets
      an empty one. */
  lemma CapturedUndoRestoresDocument(e: Editor, view: FocusView, redo: Source)
    ensures var entry := Captured(e, view, Some(DocumentBlocks), redo);
      var undone := Perform(Perform(e, entry.redo), entry.undo.value);
      && undone.model.blocks == Some(e.model.blocks.GetOr([]))
      && undone.model.container == e.model.container
      && (e.model.blocks.Some? ==> undone == e)
  {
  }

  /** The built-in `undo`: at the start of the history it does nothing;
      otherwise it runs the current entry's undo action if there is one, and
      steps the cursor back whether or not there was. */
  function StepBack(e: Editor): (r: Editor)
    ensures r.queue == e.queue && r.commands == e.commands
    ensures e.current == -1 ==> r == e
    ensures 0 <= e.current < |e.queue| ==>
      && r.current == e.current - 1
      && r.model == match e.queue[e.current].undo
                    case Some(effect) => Perform(e, effect).model
                    case None => e.model
    ensures CursorInRange(e) ==> CursorInRange(r)
  {
    if e.current == -1 then e
    else if 0 <= e.current < |e.queue| then
      var item := e.queue[e.current];
      var undone := if item.undo.Some? then Perform(e, item.undo.value) else e;
      undone.(current := e.current - 1)
    else e
  }

  /** The built-in `redo`: when an entry follows the cursor it runs that
      entry's redo action and steps the cursor onto it; at the end of the
      history it does nothing. */
  function StepForward(e: Editor): (r: Editor)
    ensures r.queue == e.queue && r.commands == e.commands
    ensures e.current + 1 >= |e.queue| ==> r == e
    ensures 0 <= e.current + 1 < |e.queue| ==>
      && r.current == e.current + 1
      && r.model == Perform(e, e.queue[e.current + 1].redo).model
    ensures CursorInRange(e) ==> CursorInRange(r)
  {
    if 0 <= e.current + 1 < |e.queue| then
      Perform(e, e.queue[e.current + 1].redo).(current := e.current + 1)
    else e
  }

  /** Invokes command `c`: runs its `execute` against the present state,
      records the returned pair unless `c` opted out, then runs `redo` once. */
  function Run(e: Editor, c: Command, view: FocusView): (r: Editor)
    requires WellFormed(c)
    ensures r.commands == e.commands
    ensures e.queue <= r.queue
    ensures CursorInRange(e) ==> CursorInRange(r)
  {
    match c.execute
    case HistoryBack => StepBack(e)
    case HistoryForward => StepForward(e)
    case Capture(undo, redo) =>
      var entry := Captured(e, view, undo, redo);
      var booked := if Records(c) then e.(queue := e.queue + [entry], current := e.current + 1) else e;
      Perform(booked, entry.redo)
  }

  /** Invokes the command registered under `name`. A name nobody registered
      is an error; the engine itself would fail calling a missing entry
      point. */
  function Dispatch(e: Editor, name: string, view: FocusView): (r: Result<Editor, Error>)
    requires WellFormedCommands(e.commands)
    ensures r.Failure? <==> name !in e.commands
    ensures r.Failure? ==> r.error == UnknownCommand(name)
    ensures r.Success? ==> r.value.commands == e.commands && e.queue <= r.value.queue
    ensures r.Success? && Valid(e) ==> Valid(r.value)
  {
    if name in e.commands then Success(Run(e, e.commands[name], view))
    else Failure(UnknownCommand(name))
  }

  /** Files `c` under its name, replacing whatever was registered there. */
  function Register(e: Editor, c: Command): (r: Editor)
    requires WellFormed(c)
    ensures c.name in r.commands && r.commands[c.name] == c
    ensures r.commands.Keys == e.commands.Keys + {c.name}
    ensures forall name :: name in e.commands && name != c.name ==> r.commands[name] == e.commands[name]
    ensures r.current == e.current && r.queue == e.queue && r.model == e.model
    ensures Valid(e) ==> Valid(r)
  {
    e.(commands := e.commands[c.name := c])
  }

  const UndoCommand := Command("undo", ["ctrl+z"], Some(false), HistoryBack)
  const RedoCommand := Command("redo", ["ctrl+y", "ctrl+shift+z"], Some(false), HistoryForward)

  /** A fresh engine over document `model`: empty history, cursor at -1, and
      only the built-in `undo` and `redo` registered, neither of them
      recording. */
  function Init(model: ModelValue): (e: Editor)
    ensures e.current == -1 && e.queue == [] && e.model == model
    ensures e.commands.Keys == {"undo", "redo"}
    ensures e.commands["undo"].execute == HistoryBack && !Records(e.commands["undo"])
    ensures e.commands["redo"].execute == HistoryForward && !Records(e.commands["redo"])
    ensures Valid(e)
  {
    var empty := Editor(-1, [], map[], model);
    Register(Register(empty, UndoCommand), RedoCommand)
  }

  /** A recording command appends exactly the entry its `execute` built from
      the present state, moves the cursor forward by one, and has applied its
      redo action once. */
  lemma RecordingCommandAppendsOneEntry(e: Editor, name: string, view: FocusView)
    requires WellFormedCommands(e.commands)
    requires name in e.commands && e.commands[name].execute.Capture? && Records(e.commands[name])
    ensures var c := e.commands[name];
      var entry := Captured(e, view, c.execute.undo, c.execute.redo);
      var r := Dispatch(e, name, view);
      && r.Success?
      && r.value.queue == e.queue + [entry]
      && r.value.current == e.current + 1
      && r.value.model == Perform(e, entry.redo).model
  {
  }

  /** A command that opted out of recording leaves the history alone: only
      its redo action takes effect. */
  lemma NonRecordingCommandLeavesHistory(e: Editor, name: string, view: FocusView)
    requires WellFormedCommands(e.commands)
    requires name in e.commands && !Records(e.commands[name])
    ensures var r := Dispatch(e, name, view);
      && r.Success?
      && r.value.queue == e.queue
      && (e.commands[name].execute.Capture? ==>
            var c := e.commands[name];
            && r.value.current == e.current
            && r.value.model == Perform(e, Captured(e, view, c.execute.undo, c.execute.redo).redo).model)
  {
  }

  /** The built-in `undo` and `redo` never record themselves, whatever state
      they are invoked in and whatever the host shows. */
  lemma BuiltinsAreNotRecorded(e: Editor, view: FocusView)
    requires WellFormedCommands(e.commands)
    requires "undo" in e.commands && e.commands["undo"] == UndoCommand
    requires "redo" in e.commands && e.commands["redo"] == RedoCommand
    ensures Dispatch(e, "undo", view) == Success(StepBack(e))
    ensures Dispatch(e, "redo", view) == Success(StepForward(e))
    ensures |StepBack(e).queue| == |e.queue| && |StepForward(e).queue| == |e.queue|
  {
  }

  /** Undo at the start of the history and redo at its end change nothing. */
  lemma BoundariesAreNoOps(e: Editor)
    requires CursorInRange(e)
    ensures e.current == -1 ==> StepBack(e) == e
    ensures e.current == |e.queue| - 1 ==> StepForward(e) == e
  {
  }

  /** Redo undoes an undo: after stepping back over the current entry, a
      step forward lands on it again and re-applies its redo action. */
  lemma StepForwardAfterStepBack(e: Editor)
    requires CursorInRange(e) && e.current >= 0
    ensures var r := StepForward(StepBack(e));
      && r.current == e.current
      && r.queue == e.queue
      && r.model == Perform(e, e.queue[e.current].redo).model
  {
  }

  /** Undo undoes a redo whose entry restores the present document: stepping
      forward and back leaves the whole state as it was. */
  lemma StepBackAfterStepForward(e: Editor, before: seq<Block>)
    requires CursorInRange(e) && e.current + 1 < |e.queue|
    requires e.queue[e.current + 1].undo == Some(UpdateBlocks(before))
    requires e.model.blocks == Some(before)
    ensures StepBack(StepForward(e)) == e
  {
  }

  /** The flaw of an append-only history. From the end of the history, an
      undo followed by a new recorded edit appends the edit behind the undone
      entry and leaves the cursor on that undone entry, not on the edit just
      recorded; the new edit is then the one `redo` would replay. */
  lemma RecordAfterUndoLeavesCursorOnStaleEntry(e: Editor, name: string, view: FocusView)
    requires Valid(e) && e.current >= 0 && e.current == |e.queue| - 1
    requires name in e.commands && e.commands[name].execute.Capture? && Records(e.commands[name])
    ensures var undone := StepBack(e);
      var c := e.commands[name];
      var edit := Captured(undone, view, c.execute.undo, c.execute.redo);
      var r := Dispatch(undone, name, view).value;
      && |r.queue| == |e.queue| + 1
      && r.current == e.current
      && r.queue[r.current] == e.queue[e.current]
      && r.queue[r.current + 1] == edit
  {
  }
}
