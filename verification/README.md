# Undo/redo command engine of a visual page editor, in Dafny

This project models the editing core of a drag-and-drop page editor. Users
place blocks on a canvas. Named commands change the document, and a linear
history lets users undo and redo those changes. The model has three parts:

- **Commander** (`commander.dfy`) models the command engine. Its state is a
  cursor `current` (-1 at the start), an append-only `queue` of recorded
  entries, and a map from command names to command descriptors.
  - Invoking a command runs its `execute` against the host's present state.
  - The resulting `{undo?, redo}` pair is appended and the cursor advances,
    unless the command opted out with `followQueue: false`.
  - Then `redo` runs once.
  - The built-in `undo` and `redo` commands move the cursor over the queue.
    At either end they do nothing.
- **VisualCommand** (`visual_command.dfy`) models the document command set.
  - It registers `delete` next to the built-ins.
  - When invoked, `delete` captures two lists. The first is the document's
    blocks, or `[]` when the document has none. The second is the blocks the
    selection leaves out.
  - Its redo sets the document to the second list and its undo sets it back
    to the first.
  - The host calls three operations: `undo`, `redo` and `delete`.
- **EditorUtils** (`editor_utils.dfy`) models the document records and the
  component registry. `NewBlock` builds a fresh block. A configuration keeps
  every registered component in a list and the latest component per key in
  a map.

`scenarios.dfy` walks concrete five-block sessions through delete, undo and
redo. `options.dfy` holds the `Option` and `Result` types.

In the engine, actions are closures. In the model:
- the only action a recorded entry holds is the host's block-list update,
  `UpdateBlocks(blocks)`;
- the document is part of the state record, so every step is a pure
  function;
- a command's `execute` is data. `HistoryBack` and `HistoryForward` are the
  built-ins. `Capture(undo, redo)` names the host values an editing command
  reads when invoked: the document's blocks or the unselected blocks.

The history is append-only and is never truncated. The model keeps this
exactly as the engine does, and it is not repaired here. After an undo, a new
edit is appended behind the undone entries, so the cursor lands on the undone
entry, not on the new one:
- `Commander.RecordAfterUndoLeavesCursorOnStaleEntry` states this in general;
- `VisualCommand.UndoAfterUndoneDeleteHitsStaleEntry` states it for `delete`;
- `Scenarios.ScenarioUndoneEntryResurfaces` shows an undone deletion coming
  back on a later `redo`.

The conventional contract truncates the redo tail on a new edit. The code
does not, and the model follows the code.

## Model

| member | source | states |
|---|---|---|
| `Commander.Init` | src/packages/plugins/command.plugin.ts:19-75 | a fresh engine has cursor -1 and an empty queue; only `undo` and `redo` are registered, as history walks that do not record; the state is valid |
| `Commander.Register` | src/packages/plugins/command.plugin.ts:25-34 | the descriptor is filed under its name, replacing any earlier one; every other name keeps its command; history and document are untouched; validity is kept |
| `Commander.Run` | src/packages/plugins/command.plugin.ts:26-33 | invoking a command never changes the registry, keeps every existing queue entry as a prefix, and keeps the cursor in range |
| `Commander.Dispatch` | src/packages/plugins/command.plugin.ts:21-33 | invocation by name fails exactly for unregistered names; on success the registry is unchanged, the queue only grows and validity is kept |
| `Commander.StepBack` | src/packages/plugins/command.plugin.ts:42-51 | at cursor -1 nothing changes; otherwise the current entry's undo is applied if it is present and the cursor drops by one either way; the queue and the registry are unchanged |
| `Commander.StepForward` | src/packages/plugins/command.plugin.ts:66-71 | with no entry after the cursor nothing changes; otherwise that entry's redo is applied and the cursor rises by one; the queue and the registry are unchanged |
| `Commander.RecordingCommandAppendsOneEntry` | src/packages/plugins/command.plugin.ts:27-32 | a recording command appends exactly the entry it captured, raises the cursor by one and leaves its redo applied |
| `Commander.NonRecordingCommandLeavesHistory` | src/packages/plugins/command.plugin.ts:28-32 | a command with `followQueue: false` leaves the queue alone; an editing one also leaves the cursor alone and has applied its captured redo to the document once |
| `Commander.CapturedUndoRestoresDocument` | src/packages/utils/visual.command.tsx:24-41 | an entry whose undo captured the document's blocks takes the document back, after its redo, to the blocks read at invocation (or [] if there were none); a document that had a block list is restored exactly |
| `Commander.BuiltinsAreNotRecorded` | src/packages/plugins/command.plugin.ts:36-75 | invoking the built-in `undo` or `redo` is exactly one history walk, never records, and does not depend on the selection |
| `Commander.BoundariesAreNoOps` | src/packages/plugins/command.plugin.ts:42-72 | undo at cursor -1 and redo at the last entry leave the whole state unchanged |
| `Commander.StepForwardAfterStepBack` | src/packages/plugins/command.plugin.ts:46-71 | undo then redo puts the cursor back on the same entry, keeps the queue and re-applies that entry's redo |
| `Commander.StepBackAfterStepForward` | src/packages/plugins/command.plugin.ts:46-71 | redo then undo restores the entire state when the next entry's undo restores the present blocks |
| `Commander.RecordAfterUndoLeavesCursorOnStaleEntry` | src/packages/plugins/command.plugin.ts:29-30 | after an undo from the end of the history, a new recorded edit is appended behind the undone entry; the cursor stays on that undone entry, and the new entry is the next one to redo |
| `VisualCommand.NewSession` | src/packages/utils/visual.command.tsx:17-45 | the session starts with cursor -1, an empty queue and the given document; `undo`, `redo` and a recording `delete` are registered |
| `VisualCommand.Undo` | src/packages/plugins/command.plugin.ts:42-51 | the host's undo keeps the session and the queue; it is a no-op at -1, and otherwise applies the current entry's undo if present and moves the cursor back |
| `VisualCommand.Redo` | src/packages/plugins/command.plugin.ts:66-71 | the host's redo keeps the session and the queue; it is a no-op at the last entry, and otherwise applies the next entry's redo and moves the cursor forward |
| `VisualCommand.Delete` | src/packages/utils/visual.command.tsx:22-41 | delete appends one entry: its undo restores the blocks present at the call (or [] if none) and its redo keeps the unselected blocks; the cursor rises by one and the document then holds exactly the unselected blocks |
| `VisualCommand.FacadeDispatchesByName` | src/packages/utils/visual.command.tsx:47-51 | the host's undo and redo are the registered commands of those names, invoked with no arguments, and ignore the selection; delete depends on the selection only through its unselected blocks |
| `VisualCommand.DeleteWithNothingSelected` | src/packages/utils/visual.command.tsx:24-27 | with nothing selected, delete leaves the document as it was but is still recorded |
| `VisualCommand.DeleteThenUndoRestores` | src/packages/utils/visual.command.tsx:24-41 | with nothing undone, delete then undo restores the cursor and the blocks; a document that had no block list gets an empty one |
| `VisualCommand.DeleteUndoRedoReapplies` | src/packages/utils/visual.command.tsx:30-40 | with nothing undone, delete, undo, redo ends in exactly the state delete alone produced |
| `VisualCommand.UndoAfterUndoneDeleteHitsStaleEntry` | src/packages/plugins/command.plugin.ts:29-51 | after an undo from any entry, a delete followed by an undo applies the undone entry's undo, not the new delete's, and leaves the cursor one below where the first undo started |
| `VisualCommand.Replay` | src/packages/utils/visual.command.tsx:47-51 | any sequence of host calls keeps the session: the cursor stays in range and the three commands stay registered unchanged |
| `VisualCommand.ReplayOnlyAppends` | src/packages/plugins/command.plugin.ts:29-30 | any sequence of host calls keeps the old queue as a prefix and adds exactly one entry per delete |
| `VisualCommand.HistoryWalksOnEmptyHistoryAreNoOps` | src/packages/plugins/command.plugin.ts:42-72 | on a fresh session, any sequence of undo and redo calls changes nothing |
| `Scenarios.ScenarioDelete` | src/packages/utils/visual.command.tsx:24-33 | deleting two of five blocks records one entry, sets the cursor to 0 and leaves the three unselected blocks |
| `Scenarios.ScenarioUndoThenRedo` | src/packages/utils/visual.command.tsx:30-40 | undo then brings back all five blocks with cursor -1; redo then removes the two again with cursor 0 |
| `Scenarios.ScenarioUndoOnFreshSession` | src/packages/plugins/command.plugin.ts:43-45 | undo on a fresh session changes nothing |
| `Scenarios.ScenarioUndoneEntryResurfaces` | src/packages/plugins/command.plugin.ts:29-30 | delete, delete, undo, delete, undo, redo replays the undone second deletion; the block deleted last comes back |
| `EditorUtils.NewBlock` | src/packages/visual-editor.utils.ts:25-41 | a new block is unselected and still to be centred; it keeps the given position and takes the component's key |
| `EditorUtils.NewBlockDeterminedByKeyAndPosition` | src/packages/visual-editor.utils.ts:34-40 | two new blocks are equal exactly when their component keys and positions are equal |
| `EditorUtils.NewConfig` | src/packages/visual-editor.utils.ts:43-45 | a fresh configuration has an empty component list and an empty component map |
| `EditorUtils.NewConfigConsistent` | src/packages/visual-editor.utils.ts:44-45 | the fresh list and map agree: the map holds the latest list entry for every key |
| `EditorUtils.RegisterComponent` | src/packages/visual-editor.utils.ts:49-53 | the list grows by one, keeps its earlier elements and ends with the component renamed to the key; the map sends the key to that component and keeps every other key |
| `EditorUtils.RegisterComponentPreservesConsistent` | src/packages/visual-editor.utils.ts:51-52 | registration keeps the map equal to the latest list entry for every key |
| `EditorUtils.RegisterComponents` | src/packages/visual-editor.utils.ts:49-53 | a run of registrations adds one list element per registration, keeps the old list as a prefix and keeps the map consistent with the list |
| `EditorUtils.RegisterComponentsKeepsEveryEntry` | src/packages/visual-editor.utils.ts:50-51 | every registration of a run, duplicates included, lands in the list in order, carrying its key |
| `EditorUtils.RegisterComponentsMapsLatest` | src/packages/visual-editor.utils.ts:52 | after a run, the map answers each key with its latest registration in the run; keys the run does not register keep their entry |
| `EditorUtils.DuplicateKeyKeepsBothButMapsLatest` | src/packages/visual-editor.utils.ts:51-52 | registering one key twice keeps both components in the list, but the map holds the later one |

## Left out

- Rendering is left out. This covers the editor and block components, the
  palette markup, the `preview`/`render` functions (kept only as opaque
  `View` tags), and the DOM-measured centring of a dropped block.
  All of it is presentation.
- Vue's `reactive` wrapper and the `console.log` calls are left out. They do
  not affect the state.
- Keyboard shortcuts are kept as uninterpreted strings. Nothing in this core
  binds them.
- Exceptions raised inside an action are not modelled. The model's actions
  cannot fail.
- The variadic arguments of `execute` are not modelled. Every command here is
  invoked without arguments.
- The host's `updateBlocks` is not part of this model. It is taken to replace
  the document's block list and change nothing else.
- The selection (`focusData`) is computed by the host. The model takes it as
  a `FocusView` parameter and does not tie it to the document's `focus`
  flags.
- Commander.Register: it requires a history walk to be registered with
  recording off. Recording a walk would store a cursor-moving closure in the
  queue, and replaying such a closure can recurse without end. The engine
  only registers its walks with `followQueue: false`.
- Commander.Run: it carries the same requirement as `Register`. Its own
  contract is weaker than the full behaviour. For editing commands, the
  queue, the cursor and the document are stated by
  `Commander.RecordingCommandAppendsOneEntry` (recording) and
  `Commander.NonRecordingCommandLeavesHistory` (not recording).
- Commander.Dispatch: an unregistered name gives the error value
  `UnknownCommand`. In the engine, calling a missing entry point throws for
  most names. A name inherited from `Object.prototype` (`toString`,
  `constructor`, ...) instead finds a callable that does not throw; that
  case is not modelled.
- Command names and component keys are assumed not to be `Object.prototype`
  property names. The engine's command table and the configuration's
  component map are plain objects, not maps. Registering under `__proto__`
  replaces the object's prototype instead of adding a key, so other keys
  (such as `render`) would then answer with that component's fields. Under
  that assumption the "every other key is unchanged" clauses of
  `Commander.Register`, `EditorUtils.RegisterComponent` and
  `EditorUtils.RegisterComponentsMapsLatest` hold.
- Entries hold copies of block lists where the engine holds references. In
  the engine, `delete` captures the document's live block array and the
  selection's `unFocus` array, and block objects are shared with the
  document. A later in-place change (for example the centring of a dropped
  block, which rewrites its `top`, `left` and `adjustPosition`) would show
  through a later undo or redo. The model assumes lists and blocks are never
  changed in place. The restoring lemmas
  (`VisualCommand.DeleteThenUndoRestores`,
  `Commander.StepBackAfterStepForward`,
  `Commander.CapturedUndoRestoresDocument`) rely on that assumption.
- Positions and sizes (`top`, `left`, `width`, `height`) are JavaScript
  numbers, which can be fractional after a block is centred. They are
  modelled as integers. This core only copies them and never computes with
  them.
- The order of history bookkeeping and running `redo` is not modelled. The
  only effects here touch the document, never the history, so the order
  cannot be observed.
