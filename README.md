# OrcaLab editor core, modelled in Dafny

OrcaLab is a desktop editor for simulation scenes. The editor keeps a local
mirror of the scene as a tree of actors and talks to a remote scene server.
This project models the logic at its core and proves properties of it:

- the main window's undo/redo history, with its seven command kinds;
- the window's scene operations: add, delete, rename, reparent, set transform,
  and the recursive restore of a deleted subtree;
- the decoder for the pending operations the remote scene reports
  (transform drags, selection changes, dropped items), and one poll of them;
- the per-interface event bus (a singleton proxy with an ordered handler list);
- the scene `Path` value type and the `GroupActor`/`BaseActor` parent/child
  links, as the repository's tests pin them down;
- the layered configuration (`deep_merge`, `init_config`, the singleton);
- level discovery (`.prefab` to `.spawnable`, scene filtering, de-duplication)
  and the level list of the scene-selection dialog;
- routing of property notifications to property editors, including tree
  editors addressed as `node.prop`;
- the terminal's line-input buffer;
- the copilot panel's asset matching and the copilot service's data shaping;
- the reinstall decision and install-state recording of the Python project
  installer;
- the package-list and `nvidia-smi` text parsers of the system report;
- the process-name classifier used at start-up.

## Layout

- Shared helpers:
  - `wrappers.dfy`: `Option` and `Result`.
  - `text.dfy`: the parts of Python's `str` used by the code: `isspace`, `isprintable`, stripping, splitting, joining, substring tests and lower-casing.
  - `json.dfy`: JSON values with Python truthiness.
  - `seqs.dfy`: `list.remove`.
- `path.dfy` (`ScenePath`) and `actor.dfy` (`SceneActor`): the `Path` and actor
  contracts.
- `scene_tree.dfy` (`SceneTree`): the local scene as a value tree. Every
  mutation is an edit applied at a path, so each fact is proved once for a
  single node and then lifted to the tree.
- `main_window.dfy` (`MainWindow`), in two layers:
  - every window operation as a function on a `WindowState` value, returning
    the state reached and the exception raised, if any;
  - the `Window` class, whose methods perform the same steps on their fields.
    Each method's `ensures` ties its new fields to that function.
- One module per remaining source file: `event_bus.dfy`, `config_service.dfy`,
  `level_discovery.dfy`, `scene_select.dfy`, `property_edit.dfy`,
  `terminal.dfy`, `copilot_panel.dfy`, `copilot_service.dfy`, `installer.dfy`,
  `report.dfy`, `process_filter.dfy`.

## Model

| member | source | states |
|---|---|---|
| ScenePath.Parse | test/orcalab/test_path.py:9-19 | `Path(s)` splits on `/` and drops empty pieces, so every segment is a non-empty name without `/`; equality of the resulting values is structural |
| ScenePath.Child | orcalab/ui/main_window.py:1196 | `path / name` has one more segment, and that segment is the name |
| ScenePath.Parent | test/orcalab/test_path.py:34-38 | `parent()` is `None` exactly for the root, and otherwise one segment shorter |
| ScenePath.Name | orcalab/ui/main_window.py:1136 | `name()` is the last segment, and empty for the root |
| ScenePath.ParentOfChild | test/orcalab/test_path.py:34-38 | the parent of `p / name` is `p`, and `p / name` is a descendant of `p` |
| ScenePath.ChildOfParent | test/orcalab/test_path.py:34-38 | a non-root path is its parent's child under its own name, and is under its parent |
| ScenePath.DescendantOfRoot | test/orcalab/test_path.py:23 | a path is under the root exactly when it is not the root |
| ScenePath.DescendantIrreflexive | test/orcalab/test_path.py:27 | no path is under itself |
| ScenePath.DescendantAsymmetric | test/orcalab/test_path.py:30 | if `p` is under `q`, then `q` is not under `p` |
| ScenePath.DescendantTransitive | test/orcalab/test_path.py:24-25 | under-ness is transitive, so `/a/b/c` is under `/a` |
| ScenePath.DescendantStep | test/orcalab/test_path.py:22-31 | `p` is under `a` exactly when `p`'s parent is `a` or is under `a` |
| ScenePath.SiblingsUnrelated | test/orcalab/test_path.py:28-31 | differently named children of one parent differ, and no path is under both, which covers `/aaa` against `/a` |
| ScenePath.PathRoundTrip | test/orcalab/test_path.py:4-12 | parsing the printed form of a valid path gives the same path back, with the root printed as `/` |
| SceneActor.Actor.Group | test/orcalab/test_actor.py:6-7 | `GroupActor(name)` is a parentless group with no children; it keeps the parent/child links consistent |
| SceneActor.Actor.Base | test/orcalab/test_actor.py:14-18 | constructing with a parent appends the new actor to that parent's children and sets its parent |
| SceneActor.ChildrenInOrder | test/orcalab/test_actor.py:51-62 | a group given two detached actors with `add_child` lists exactly those two, in insertion order, as their parent; the list the accessor returns is a value, so extending it leaves the group with two children |
| SceneActor.Actor.SetParent | test/orcalab/test_actor.py:21-26 | the `parent` setter detaches the actor from its old group, which then no longer lists it, and attaches it to the new one at the end; setting the same parent changes nothing |
| SceneActor.Actor.Detach | test/orcalab/test_actor.py:21-26 | `parent = None` removes the first occurrence of the actor from its old group's children |
| SceneActor.Actor.Attach | test/orcalab/test_actor.py:6-11 | a detached actor is appended to the new group's children and its parent is set |
| SceneActor.Actor.AddChild | test/orcalab/test_actor.py:6-11 | after `add_child` the actor's parent is the group, and it is appended once unless it was already a child |
| SceneActor.Actor.RemoveChild | test/orcalab/test_actor.py:35-48 | removing a child drops it from the children and clears its parent; removing a non-child is an error that changes nothing |
| SceneActor.AddDetached | test/orcalab/test_actor.py:6-8 | a fresh parentless actor keeps the link invariant of the actor world |
| SceneActor.ConsistentFrom | test/orcalab/test_actor.py:6-62 | heap links that match consistent child lists and parent maps are consistent |
| SceneActor.Reattach | test/orcalab/test_actor.py:6-26 | moving one actor to a new parent keeps child lists duplicate-free, and "x is a child of g" exactly when "g is x's parent" |
| SceneTree.NewGroup | orcalab/ui/main_window.py:1164 | `GroupActor(name=…)` is an empty group with that name |
| SceneTree.ChildIndex | orcalab/ui/main_window.py:1226 | `children.index`: the first child with the name, or -1 exactly when there is none |
| SceneTree.ChildIndexOfDistinct | orcalab/ui/main_window.py:1226 | with distinct names, a child is found at its own row |
| SceneTree.Find | orcalab/ui/main_window.py:795 | resolving no segments gives the node itself |
| SceneTree.InsertPosition | orcalab/ui/main_window.py:756 | where `list.insert(row, x)` puts `x`: rows inside the list are kept, larger rows go to the end, and negative rows count from the end, clamped at 0 |
| SceneTree.PyInsert | orcalab/ui/main_window.py:756 | `list.insert` puts `x` at that position and keeps every other child in order |
| SceneTree.RemoveNamed | orcalab/ui/main_window.py:721 | removing a named child drops exactly the first child with that name and keeps the rest in order; with no such child nothing changes |
| SceneTree.ApplyLocal | orcalab/ui/main_window.py:687-803 | an edit on one node keeps its name and kind |
| SceneTree.ApplyAt | orcalab/ui/main_window.py:687-803 | an edit at a path keeps the root's name and kind, and at a path that does not resolve changes nothing |
| SceneTree.ChildIndexUpdate | orcalab/ui/main_window.py:687-803 | replacing a child by one of the same name does not move any name's row |
| SceneTree.FindApplyAt | orcalab/ui/main_window.py:687-803 | after an edit at a resolving path, that path leads to the edited node |
| SceneTree.LiftSame | orcalab/ui/main_window.py:687-803 | two edits at one path that compose on the node compose on the tree |
| SceneTree.LiftNested | orcalab/ui/main_window.py:1194-1198 | an edit at a path followed by an edit at one of its children is one edit at the path |
| SceneTree.NoOpAt | orcalab/ui/main_window.py:687-803 | an empty extension anywhere changes nothing |
| SceneTree.LiftValid | orcalab/ui/main_window.py:687-803 | an edit that keeps one node's sibling names distinct keeps the whole tree valid |
| SceneTree.AddRefusal | orcalab/ui/main_window.py:688-690 | adding is refused exactly when the parent is missing, is not a group, or already has a child with the name |
| SceneTree.AddActor | orcalab/ui/main_window.py:687-706 | `add_actor` fails exactly when it is refused |
| SceneTree.AddActorAt | orcalab/ui/main_window.py:687-706 | the row-aware add fails exactly when `add_actor` would |
| SceneTree.DeleteActor | orcalab/ui/main_window.py:708-725 | deleting fails exactly for the root or a path that does not resolve |
| SceneTree.SetTransform | orcalab/ui/main_window.py:792-803 | setting a transform fails exactly for a path that does not resolve |
| SceneTree.FreeNameAbsent | orcalab/ui/main_window.py:688-690 | a name the parent would accept is not yet in use under it |
| SceneTree.AddThenLookup | orcalab/ui/main_window.py:687-706 | after an add, `parent / name` resolves to the added actor |
| SceneTree.FindLast | orcalab/ui/main_window.py:795 | a path resolves only if its parent does, and then to that parent's child |
| SceneTree.ParentFound | orcalab/ui/main_window.py:1225-1227 | the parent of a resolving path resolves and holds the node at the row of its name |
| SceneTree.ChildIndexAppend | orcalab/ui/main_window.py:702 | an appended child with a fresh name is found at the old length |
| SceneTree.AddThenDelete | orcalab/ui/main_window.py:1126-1129 | deleting the actor just added gives back the scene, which is the undo of a creation |
| SceneTree.RenameChildBack | orcalab/ui/main_window.py:1134-1136 | on one node, renaming a child and renaming it back changes nothing |
| SceneTree.RenameThenRenameBack | orcalab/ui/main_window.py:1134-1136 | in a valid scene, a successful rename followed by renaming the new path back gives back the scene |
| SceneTree.RenamedParent | orcalab/ui/main_window.py:727-741 | a rename changes only the parent's child list: the renamed child is found under the new name and the old name is gone |
| SceneTree.ReparentTarget | orcalab/ui/main_window.py:743-759 | a successful reparent takes the resolving, non-root node, removes it from its old parent, and inserts it at the row under the new parent, which still resolves in the detached scene to a group without a child of that name |
| SceneTree.ReparentThenLookup | orcalab/ui/main_window.py:743-759 | in a valid scene, after a successful reparent, `new_parent / name` resolves to the moved actor, subtree and all |
| SceneTree.ReparentKeepsValid | orcalab/ui/main_window.py:743-759 | a successful reparent keeps sibling names distinct throughout the scene |
| SceneTree.SetTransformBack | orcalab/ui/main_window.py:1141-1144 | setting a transform and then setting the old value back gives back the scene |
| SceneTree.DeleteThenLookup | orcalab/ui/main_window.py:708-725 | in a valid scene, a deleted path no longer resolves |
| SceneTree.ValidFind | orcalab/ui/main_window.py:795 | every node of a valid tree is valid |
| SceneTree.AddKeepsValid | orcalab/ui/main_window.py:687-706 | adding keeps sibling names distinct |
| SceneTree.Shell | orcalab/ui/main_window.py:1190-1192 | the group re-created for a deleted group is empty and has the old name |
| SceneTree.ExtendTwice | orcalab/ui/main_window.py:1197-1198 | appending children twice is appending their concatenation |
| SceneTree.ChildIndexInserted | orcalab/ui/main_window.py:756 | an inserted child with a fresh name is found at its insert position |
| SceneTree.RestoreAppends | orcalab/ui/main_window.py:1189-1201 | `undo_delete_recursive` of an actor whose name is free appends the whole subtree unchanged under the parent |
| SceneTree.RestoreAllExtends | orcalab/ui/main_window.py:1197-1198 | restoring children with fresh, distinct names appends them in their original order |
| SceneTree.FreshAfterExtend | orcalab/ui/main_window.py:1197-1198 | after the first child is restored, the others' names are still free |
| SceneTree.RestoreAtInserts | orcalab/ui/main_window.py:1232 | the row-aware restore inserts the whole subtree at the row |
| SceneTree.InsertedShell | orcalab/ui/main_window.py:1190-1198 | re-creating an empty group and restoring its children into it is inserting the original group |
| SceneTree.DeletedParent | orcalab/ui/main_window.py:1222-1234 | after a deletion, the old parent lacks the child, which sat at the row of its name, and the name is free again |
| SceneTree.DeleteThenRestore | orcalab/ui/main_window.py:1189-1201 | undoing a deletion with `undo_delete_recursive` succeeds, but leaves the actor as the last child of its old parent |
| SceneTree.DeleteThenRestoreIsAdd | orcalab/ui/main_window.py:1189-1201 | undoing a deletion with `undo_delete_recursive` is adding the deleted actor back under its old parent, which is accepted |
| SceneTree.DeleteThenRestoreAt | orcalab/ui/main_window.py:1222-1236 | restoring at the row the delete command recorded gives back the scene exactly |
| SceneTree.Reinsert | orcalab/ui/main_window.py:1232 | on one node, removing a child and inserting it back at its old row changes nothing |
| SceneTree.RestoreReordersSiblings | orcalab/ui/main_window.py:1189-1201 | counterexample: with children `a`, `b`, deleting `a` and restoring it gives `b`, `a` |
| MainWindow.AddCommandS | orcalab/ui/main_window.py:1107-1112 | `add_command` keeps the index within the history |
| MainWindow.AddCommandTop | orcalab/ui/main_window.py:1107-1112 | after `add_command`, the new command is last and the index is on it; the commands up to the old index are kept; Undo is enabled and Redo is not |
| MainWindow.SuffixedInjective | orcalab/ui/main_window.py:680-683 | different counters give different `base_k` names |
| MainWindow.FirstFree | orcalab/ui/main_window.py:679-683 | the counter loop stops at the first k from the start whose `base_k` is free |
| MainWindow.UniqueNameLeast | orcalab/ui/main_window.py:673-685 | the unique name is `base_k` for the least free k ≥ 1, so it is free and never the bare base |
| MainWindow.MakeUniqueNameS | orcalab/ui/main_window.py:673-685 | `make_unique_name` succeeds exactly when the parent resolves to a group |
| MainWindow.UniqueNameAddable | orcalab/ui/main_window.py:1214-1216 | adding an actor under a name made unique there is not refused |
| MainWindow.SetSelectionS | orcalab/ui/main_window.py:656-671 | `set_selection` raises exactly when a path does not resolve, and then changes nothing; otherwise the selection is set, the scene and history are kept, and the remote scene is told unless the source is `"remote"` |
| MainWindow.AddActorS | orcalab/ui/main_window.py:687-706 | `add_actor` raises exactly when the scene refuses, and then changes nothing; otherwise the actor is found at `parent / name`; the history is kept |
| MainWindow.DeleteActorS | orcalab/ui/main_window.py:708-725 | `delete_actor` is silent when refused; otherwise, in a valid scene, the path stops resolving; the history is kept |
| MainWindow.RenameActorS | orcalab/ui/main_window.py:727-741 | `rename_actor` raises exactly when the scene refuses; otherwise the scene is the renamed one; the history is kept |
| MainWindow.ReparentActorS | orcalab/ui/main_window.py:743-759 | `reparent_actor` raises exactly when the scene refuses; otherwise the scene is the reparented one; the history is kept |
| MainWindow.SetTransformS | orcalab/ui/main_window.py:792-803 | setting a transform raises for a missing actor or value, and then changes nothing; otherwise the actor carries the new local or world transform and nothing is pushed |
| MainWindow.SetAndPushTransformS | orcalab/ui/main_window.py:1141-1147 | the same local change, followed by exactly one push of the transform to the remote scene |
| MainWindow.RestoreS | orcalab/ui/main_window.py:1189-1201 | `undo_delete_recursive` keeps the history |
| MainWindow.RestoreAllS | orcalab/ui/main_window.py:1197-1198 | the loop over the children keeps the history |
| MainWindow.AddActorAtS | orcalab/ui/main_window.py:687-706 | the row-aware add raises exactly when `add_actor` would, and then changes nothing |
| MainWindow.RestoreAtS | orcalab/ui/main_window.py:1222-1236 | the corrected restore keeps the history |
| MainWindow.RestoreSScene | orcalab/ui/main_window.py:1189-1201 | on the scene, the window's restore succeeds exactly when the scene-level restore does, ends in its result, and changes only the scene and the remote log |
| MainWindow.RestoreAllSScene | orcalab/ui/main_window.py:1197-1198 | the same for the loop over the children |
| MainWindow.RestoreAtSScene | orcalab/ui/main_window.py:1222-1236 | the same for the corrected, row-aware restore |
| MainWindow.ApplyUndo | orcalab/ui/main_window.py:1123-1149 | reverting any of the seven commands leaves the history and index alone; a deletion is reverted with `undo_delete_recursive`, which appends |
| MainWindow.ApplyUndoAt | orcalab/ui/main_window.py:1222-1236 | the corrected revert differs from `ApplyUndo` only for a deletion, which it reverts at the recorded row; it leaves the history and index alone |
| MainWindow.ApplyRedo | orcalab/ui/main_window.py:1158-1187 | replaying any of the seven commands leaves the history and index alone |
| MainWindow.UndoS | orcalab/ui/main_window.py:1116-1121 | `undo` never changes the command list; at index -1 it is a silent no-op; otherwise the index drops by one and Redo becomes enabled |
| MainWindow.UndoAtS | orcalab/ui/main_window.py:1222-1236 | the corrected `undo` moves the index like `undo`, and equals it on every command except a deletion |
| MainWindow.RedoS | orcalab/ui/main_window.py:1151-1156 | `redo` never changes the command list; with nothing ahead it is a silent no-op; otherwise the index rises by one and Undo becomes enabled |
| MainWindow.TransformChangeCommandS | orcalab/ui/main_window.py:1347-1354 | exactly one `TransformCommand` from the stored start value to the stored end value is recorded on top, and the scene is untouched |
| MainWindow.SetSelectionFromOutlineS | orcalab/ui/main_window.py:1238-1245 | raises exactly when a path does not resolve; an unchanged selection changes nothing; a changed one records `SelectionCommand(old, new)` on top and sets the selection |
| MainWindow.SetSelectionFromRemoteS | orcalab/ui/main_window.py:1247-1253 | an unchanged selection changes nothing; a changed one records `SelectionCommand(old, new)` on top; nothing is pushed back to the remote scene |
| MainWindow.AddThenRecord | orcalab/ui/main_window.py:1214-1220 | the add raises exactly when it is refused, and then changes nothing; otherwise the name was free before, the actor is found afterwards, and the command is on top with nothing to redo |
| MainWindow.AddGroupFromOutlineS | orcalab/ui/main_window.py:1203-1220 | on success, a `CreateGroupCommand` is on top whose path was free before and resolves afterwards; on a raise nothing changes |
| MainWindow.DeleteFromOutlineS | orcalab/ui/main_window.py:1222-1236 | succeeds exactly for a resolving non-root path; the recorded `DeleteActorCommand` holds that actor and path |
| MainWindow.ReparentFromOutlineS | orcalab/ui/main_window.py:1255-1271 | succeeds exactly when the reparent does; the recorded command holds the old path, the new path `new_parent / name` and the new row |
| MainWindow.RenameUndoableS | orcalab/ui/main_window.py:1283-1291 | succeeds exactly when the rename does; the recorded command goes from the old path to the sibling path with the new name |
| MainWindow.AddItemWithTransformS | orcalab/ui/main_window.py:1308-1319 | succeeds exactly when the parent is a group; the recorded `CreateActorCommand` holds an asset with the item's spawnable and transform, found at a path that was free before |
| MainWindow.AddItemS | orcalab/ui/main_window.py:1293-1306 | succeeds exactly when the parent is a group; the recorded `CreateActorCommand` holds an asset whose spawnable is the item, at the identity transform, found at a path that was free before |
| MainWindow.AddItemDragS | orcalab/ui/main_window.py:1329-1345 | succeeds exactly when the scene root is a group; the recorded `CreateActorCommand` holds an asset at the dropped transform, directly under the root, at a path that was free before |
| MainWindow.CopilotAddGroupS | orcalab/ui/main_window.py:1321-1327 | on success, `CreateGroupCommand(p)` is on top and an empty group named after `p` is found at `p` |
| MainWindow.PrefixesExclusive | orcalab/ui/main_window.py:303-385 | at most one of the eight operation prefixes can start a given string, so the order of the tests does not matter |
| MainWindow.NotBothPrefixes | orcalab/ui/main_window.py:303-385 | two prefixes that differ at a shared position cannot both start a string |
| MainWindow.PrefixedPath | orcalab/ui/main_window.py:303-311 | `Path(op[len(prefix):])` of a prefix followed by a printed path is that path |
| MainWindow.TokensDecode | orcalab/ui/main_window.py:303-370 | start, end and live tokens built from a path decode to that operation on that path, local or world |
| MainWindow.ParseAll | orcalab/ui/main_window.py:376-377 | each reported selection string becomes the path it parses to, in order |
| MainWindow.ProcessS | orcalab/ui/main_window.py:302-385 | an unrecognised operation changes nothing; a transform operation raises exactly when its path does not resolve, and then changes nothing |
| MainWindow.ProcessAllS | orcalab/ui/main_window.py:288-300 | a batch of unrecognised operations changes nothing; any batch keeps the history index valid |
| MainWindow.PollS | orcalab/ui/main_window.py:288-300 | the next poll is scheduled exactly when polling is on and nothing raised; while a simulation runs, or once polling stopped, nothing changes |
| MainWindow.DeleteFromOutlineUndo | orcalab/ui/main_window.py:1222-1236 | deleting through the outline and undoing succeeds and moves the index back, but the actor comes back as its old parent's last child, whatever its row was; redoing deletes it again |
| MainWindow.DeleteFromOutlineUndoAt | orcalab/ui/main_window.py:1222-1236 | with the corrected undo, deleting through the outline and undoing gives back the scene exactly and the index; redoing deletes again |
| MainWindow.RenameUndoableUndo | orcalab/ui/main_window.py:1283-1291 | renaming through the outline and undoing gives back the scene; redoing renames again |
| MainWindow.AddThenRecordUndo | orcalab/ui/main_window.py:1126-1129 | undoing a recorded creation removes the actor again, giving back the scene; redoing adds it back |
| MainWindow.AddGroupFromOutlineUndo | orcalab/ui/main_window.py:1203-1220 | a group added from the outline is removed by undo and comes back by redo |
| MainWindow.AddItemWithTransformUndo | orcalab/ui/main_window.py:1308-1319 | an item added to the scene is removed by undo and comes back by redo |
| MainWindow.RemoteSelectionUndo | orcalab/ui/main_window.py:1247-1253 | a remote selection change pushes nothing back; undoing it restores the old selection and pushes it; redoing gives back the new one |
| MainWindow.SetTransformFound | orcalab/ui/main_window.py:792-803 | after a transform is set, the actor is found with that transform |
| MainWindow.LiveStep | orcalab/ui/main_window.py:344-370 | any token that decodes to a live transform on an actor that resolves sets the reported transform and pushes it back to the remote scene |
| MainWindow.EndStep | orcalab/ui/main_window.py:313-342 | any token that decodes to an end transform on an actor that resolves stores the end value and records one command from the start value to it |
| MainWindow.TransformCommandUndo | orcalab/ui/main_window.py:1141-1147 | undoing a transform command puts the old value back, giving back the scene; redoing puts the new one back |
| MainWindow.TransformDragRecorded | orcalab/ui/main_window.py:303-370 | a start, live and end token on one actor leave it with the new transform and record exactly one `TransformCommand` from the old value to the new |
| MainWindow.TransformDragUndo | orcalab/ui/main_window.py:1116-1187 | undoing that drag gives back the scene and the index; redoing gives back the dragged scene |
| MainWindow.Initial | orcalab/ui/main_window.py:900-901 | the window starts with an empty history at index -1, so neither Undo nor Redo is enabled |
| MainWindow.Window.constructor | orcalab/ui/main_window.py:77-84 | the fields start as the initial state: no start or end transform, no simulation process, and the empty history at index -1 set at main_window.py:900-901 |
| MainWindow.Window.AddCommand | orcalab/ui/main_window.py:1107-1112 | the fields end as `add_command` of the old ones |
| MainWindow.Window.MakeUniqueName | orcalab/ui/main_window.py:673-685 | the counter loop returns the least free `base_k` |
| MainWindow.Window.SetSelection | orcalab/ui/main_window.py:656-671 | the fields and the raise are those of `set_selection` |
| MainWindow.Window.AddActor | orcalab/ui/main_window.py:687-706 | the fields and the raise are those of `add_actor` |
| MainWindow.Window.AddActorAtRow | orcalab/ui/main_window.py:687-706 | the fields and the raise are those of the row-aware add |
| MainWindow.Window.DeleteActor | orcalab/ui/main_window.py:708-725 | the fields are those of `delete_actor` |
| MainWindow.Window.RenameActor | orcalab/ui/main_window.py:727-741 | the fields and the raise are those of `rename_actor` |
| MainWindow.Window.ReparentActor | orcalab/ui/main_window.py:743-759 | the fields and the raise are those of `reparent_actor` |
| MainWindow.Window.SetTransformFromScene | orcalab/ui/main_window.py:792-803 | the fields and the raise are those of `set_transform_from_scene` |
| MainWindow.Window.SetAndPushTransform | orcalab/ui/main_window.py:1141-1147 | the fields and the raise are those of the set followed by the push |
| MainWindow.Window.UndoDeleteRecursive | orcalab/ui/main_window.py:1189-1201 | the recursion adds the nodes one at a time and ends as the as-written restore |
| MainWindow.Window.RestoreChildren | orcalab/ui/main_window.py:1197-1198 | the loop over the children ends as the restore of all of them, stopping at the first raise |
| MainWindow.Window.RestoreAtRow | orcalab/ui/main_window.py:1222-1236 | the corrected restore ends as the row-aware restore |
| MainWindow.Window.Undo | orcalab/ui/main_window.py:1116-1149 | the fields and the raise are those of `undo` |
| MainWindow.Window.UndoAt | orcalab/ui/main_window.py:1222-1236 | the fields and the raise are those of the corrected `undo` |
| MainWindow.Window.RevertCommand | orcalab/ui/main_window.py:1123-1149 | the `match command` of `undo` ends as reverting that command, a deletion through `undo_delete_recursive` |
| MainWindow.Window.Redo | orcalab/ui/main_window.py:1151-1187 | the fields and the raise are those of `redo` |
| MainWindow.Window.ReplayCommand | orcalab/ui/main_window.py:1158-1187 | the `match command` of `redo` ends as replaying that command |
| MainWindow.Window.TransformChangeCommand | orcalab/ui/main_window.py:1347-1354 | the fields are those of `transform_change_command` |
| MainWindow.Window.SetSelectionFromOutline | orcalab/ui/main_window.py:1238-1245 | the fields and the raise are those of `set_selection_from_outline` |
| MainWindow.Window.SetSelectionFromRemoteScene | orcalab/ui/main_window.py:1247-1253 | the fields and the raise are those of `set_selection_from_remote_scene` |
| MainWindow.Window.AddAndRecord | orcalab/ui/main_window.py:1214-1220 | the fields and the raise are those of an add followed by recording the command |
| MainWindow.Window.AddGroupActorFromOutline | orcalab/ui/main_window.py:1203-1220 | the fields and the raise are those of `add_group_actor_from_outline` |
| MainWindow.Window.DeleteActorFromOutline | orcalab/ui/main_window.py:1222-1236 | the fields and the raise are those of `delete_actor_from_outline` |
| MainWindow.Window.ReparentFromOutline | orcalab/ui/main_window.py:1255-1271 | the fields and the raise are those of `reparent_from_outline` |
| MainWindow.Window.RenameUndoable | orcalab/ui/main_window.py:1283-1291 | the fields and the raise are those of `rename_undoable` |
| MainWindow.Window.AddItemToSceneWithTransform | orcalab/ui/main_window.py:1308-1319 | the fields and the raise are those of `add_item_to_scene_with_transform` |
| MainWindow.Window.AddItemToScene | orcalab/ui/main_window.py:1293-1306 | the fields and the raise are those of `add_item_to_scene` |
| MainWindow.Window.AddItemDrag | orcalab/ui/main_window.py:1329-1345 | the fields and the raise are those of `add_item_drag` |
| MainWindow.Window.OnCopilotAddGroup | orcalab/ui/main_window.py:1321-1327 | the fields and the raise are those of `on_copilot_add_group` |
| MainWindow.Window.ProcessPendingOperation | orcalab/ui/main_window.py:302-385 | the fields and the raise are those of `_process_pending_operation` on one operation |
| MainWindow.Window.QueryPendingOperationLoop | orcalab/ui/main_window.py:288-300 | the loop over one poll's operations ends in that poll's state, raise and rescheduling decision |
| EventBus.NamesOfKind | orcalab/event_bus.py:27-34 | the names listed for a kind are exactly the interface members of that kind |
| EventBus.FunctionNames | orcalab/event_bus.py:27-28 | the names `getmembers(…, isfunction)` lists are exactly the interface's functions |
| EventBus.PendingStep | orcalab/event_bus.py:30-34 | each loop step moves a coroutine function's name out of `methods`, and leaves a plain function's name in place |
| EventBus.Partition | orcalab/event_bus.py:27-34 | every interface function lands in exactly one of `methods` and `async_methods` |
| EventBus.DispatchTo | orcalab/event_bus.py:38-58 | a bus call makes at most one call per handler |
| EventBus.DispatchToShape | orcalab/event_bus.py:38-58 | a bus call calls the method on the handlers in connection order, and stops with an assertion failure at the first handler that lacks it |
| EventBus.DispatchConcat | test/orcalab/test_event_bus.py:48-57 | with two groups of handlers, those connected first are called first |
| EventBus.NoHandlersNoEffect | test/orcalab/test_event_bus.py:35-38 | with no handlers, a bus call makes no call and raises nothing |
| EventBus.ConnectDisconnect | orcalab/event_bus.py:64-71 | connecting and then disconnecting a handler gives back the same multiset of handlers, and the same list when it was not already connected |
| EventBus.Proxy.constructor | orcalab/event_bus.py:22-34 | `init` starts with no handlers and splits the interface functions into plain and coroutine names |
| EventBus.Proxy.Connect | orcalab/event_bus.py:64-66 | `connect` appends an instance of the interface, duplicates allowed, and rejects anything else |
| EventBus.Proxy.Disconnect | orcalab/event_bus.py:69-71 | `disconnect` removes the first occurrence, raises `ValueError` for an absent handler, and rejects non-instances |
| EventBus.Proxy.Invoke | orcalab/event_bus.py:36-62 | a sync or async name dispatches to the handlers in order; an undeclared name raises `AttributeError` and calls nothing |
| EventBus.BusClass.constructor | orcalab/event_bus.py:9-20 | the class starts with no instance |
| EventBus.BusClass.Instance | orcalab/event_bus.py:13-20 | the first call creates and initialises the proxy; later calls return that same proxy |
| ConfigService.Merge | orcalab/config_service.py:7-21 | the merged keys are the keys of both layers |
| ConfigService.DeepMerge | orcalab/config_service.py:7-21 | the in-place loop ends with the recursive merge of both layers |
| ConfigService.UpperLayerWins | orcalab/config_service.py:18-20 | a non-table value of the upper layer is what the merge holds at that path |
| ConfigService.LowerLayerShowsThrough | orcalab/config_service.py:14-20 | a key only in the lower layer keeps its lower value |
| ConfigService.TablesAreMerged | orcalab/config_service.py:15-17 | where both layers hold tables, the merge holds the merge of the tables, with the keys of both |
| ConfigService.MergeIdentity | orcalab/config_service.py:7-21 | merging with an empty layer, on either side, changes nothing |
| ConfigService.MergeIdempotent | orcalab/config_service.py:7-21 | merging a layer into itself changes nothing |
| ConfigService.Setting | orcalab/config_service.py:55-71 | a setting is found exactly when its section and key are present, and is that value |
| ConfigService.Service.constructor | orcalab/config_service.py:24-34 | a new service has no configuration yet, so reading a setting raises `AttributeError` |
| ConfigService.Service.InitConfig | orcalab/config_service.py:36-51 | the service is initialised; the configuration is the user file merged over the shared file merged over the project default, and the paths are recorded |
| ConfigService.Service.OrcaLabSetting | orcalab/config_service.py:55-71 | before `init_config` a setting raises `AttributeError`; afterwards it is looked up as `config["orcalab"][key]`, and one that is found is the stored value |
| ConfigService.UserOverridesShared | orcalab/config_service.py:50-51 | a user value wins over the shared configuration and the default |
| ConfigService.ServiceClass.constructor | orcalab/config_service.py:24-34 | the class starts with no instance |
| ConfigService.ServiceClass.Instance | orcalab/config_service.py:28-34 | `ConfigService()` creates the service once, not yet initialised, and returns that same instance afterwards |
| LevelDiscovery.SpawnablePath | orcalab/level_discovery.py:60-62 | a path ending in `.prefab`, in any case, gets those 7 characters replaced by `.spawnable`; any other path is unchanged |
| LevelDiscovery.ToSpawnablePath | orcalab/level_discovery.py:57-62 | an empty or missing path gives `None`, a string is rewritten, and any other value raises |
| LevelDiscovery.SpawnablePathIdempotent | orcalab/level_discovery.py:57-62 | a rewritten path no longer ends in `.prefab`, so rewriting again changes nothing |
| LevelDiscovery.ScenesOf | orcalab/level_discovery.py:32-37 | scenes come from a top-level list, or from `"scenes"` of a table (missing is none); a string or table there holds no scene entries, and null, a number or a boolean raises `TypeError`; any other top-level value gives none |
| LevelDiscovery.SceneLevels | orcalab/level_discovery.py:39-54 | filtering yields at most one level per scene entry |
| LevelDiscovery.SceneLevelsFails | orcalab/level_discovery.py:39-54 | reading the scene list raises, always `AttributeError`, exactly when some table entry has a truthy path that is not a string |
| LevelDiscovery.SceneLevelsMembers | orcalab/level_discovery.py:39-54 | the levels read are exactly those of table entries with a non-empty string path: the path rewritten, and the name, or the rewritten path when the name is falsy or missing; other entries are dropped |
| LevelDiscovery.SceneLevelsWellFormed | orcalab/level_discovery.py:39-54 | every level kept has a non-empty path that no longer ends in `.prefab`, and a non-empty name |
| LevelDiscovery.ReadSceneLayouts | orcalab/level_discovery.py:13-54 | a pak without a layout gives no levels; otherwise the levels are the filtered scenes of its layout |
| LevelDiscovery.DedupPaths | orcalab/level_discovery.py:72-85 | de-duplication keeps every path |
| LevelDiscovery.DedupDistinct | orcalab/level_discovery.py:72-85 | de-duplication leaves each path at most once |
| LevelDiscovery.DedupKeepsFirst | orcalab/level_discovery.py:72-85 | the level kept for each path is the first level with that path |
| LevelDiscovery.DedupAppend | orcalab/level_discovery.py:78-85 | one more level is kept exactly when its path was not seen yet |
| LevelDiscovery.DiscoverLevels | orcalab/level_discovery.py:65-87 | a missing cache folder gives no levels; otherwise the result is the de-duplicated levels of the paks in order, or the first error |
| LevelDiscovery.KeepUnseen | orcalab/level_discovery.py:72-85 | the loop keeps the discovered list equal to the de-duplicated levels so far, and the seen set equal to their paths |
| LevelDiscovery.AllLevelsErrSticks | orcalab/level_discovery.py:72-85 | an error in an earlier pak is the error of the whole scan |
| SceneSelect.StrRepr | orcalab/ui/scene_select_dialog.py:68 | a string's `repr()` is enclosed in its quote character: `"` when the string holds `'` and no `"`, else `'` |
| SceneSelect.PlainStrRepr | orcalab/ui/scene_select_dialog.py:68 | a string of printable characters without quotes or backslashes has the `repr()` `'…'` around its own text |
| SceneSelect.Repr | orcalab/ui/scene_select_dialog.py:68 | a list's `repr()` is bracketed, and a string's is its quoted form |
| SceneSelect.Str | orcalab/ui/scene_select_dialog.py:68 | `str()` of a string is the string; of any other value, its `repr()` |
| SceneSelect.NormalizeItem | orcalab/ui/scene_select_dialog.py:60-70 | a table is kept exactly when its path or its name is non-empty, with both filled from each other; any other item is kept with its `str()` as name and path |
| SceneSelect.ListItemsUseRepr | orcalab/ui/scene_select_dialog.py:68-70 | the items `[]` and `['a']` get the name and path `[]` and `['a']` |
| SceneSelect.Normalized | orcalab/ui/scene_select_dialog.py:60-72 | normalising never adds entries |
| SceneSelect.NormalizeLevels | orcalab/ui/scene_select_dialog.py:60-72 | `None` gives an empty list; otherwise the loop gives the normalised items in input order |
| SceneSelect.AsItems | orcalab/ui/scene_select_dialog.py:63-67 | entries written back as tables, one per entry, in order |
| SceneSelect.NormalizeStable | orcalab/ui/scene_select_dialog.py:60-72 | when every kept entry has a path, normalising the list again, written back as tables, changes nothing |
| SceneSelect.NamesFollowPaths | orcalab/ui/scene_select_dialog.py:63-67 | a kept entry whose path is set has a non-empty name |
| SceneSelect.NormalizeAsItems | orcalab/ui/scene_select_dialog.py:63-67 | entries with both fields set come back unchanged through tables |
| SceneSelect.GetLevelByPath | orcalab/ui/scene_select_dialog.py:74-80 | an empty path gives `None`; otherwise the first entry with an equal path, and `None` only when there is none |
| SceneSelect.InitialSelection | orcalab/ui/scene_select_dialog.py:10-12 | the current level if set, else the first entry's path, else `None` |
| SceneSelect.InitialSelectionIsFirstEntry | orcalab/ui/scene_select_dialog.py:10-12 | with no current level, the initial selection is the first item's non-empty path |
| PropertyEdit.GroupEditorKind | orcalab/ui/property_edit/property_group_edit.py:149-161 | an unknown value type raises `NotImplementedError`; a tree value gets the tree editor, and only a tree value does |
| PropertyEdit.LeafEditorKind | orcalab/ui/property_edit/tree_property_edit.py:19-40 | a leaf never gets a tree editor; string, tree and unknown types fall back to the string editor |
| PropertyEdit.KindsAgree | orcalab/ui/property_edit/tree_property_edit.py:30-38 | for the four scalar types both choices of editor agree |
| PropertyEdit.LeafName | orcalab/ui/property_edit/tree_property_edit.py:139-141 | a leaf of node `N` is named `N.` followed by the property name |
| PropertyEdit.AdjustedLabelWidth | orcalab/ui/property_edit/tree_property_edit.py:109 | the nested label width is max(80, width − 16·indent) |
| PropertyEdit.Clamp | orcalab/ui/property_edit/tree_property_edit.py:71-73 | a minimum width is never negative, as Qt clamps it |
| PropertyEdit.WidthFromHeight | orcalab/ui/property_edit/tree_property_edit.py:71-73 | a node's minimum width is the own width of its deepest level, since deeper nodes are wider |
| PropertyEdit.MaxWidthFromHeight | orcalab/ui/property_edit/tree_property_edit.py:135-137 | the widest child is the own width at the children's deepest level |
| PropertyEdit.PropSpecs | orcalab/ui/property_edit/tree_property_edit.py:112-118 | one leaf editor per property, in order, named `node.prop`, at the adjusted label width, read-only when the property is |
| PropertyEdit.Names | orcalab/ui/property_edit/tree_property_edit.py:219 | the names of the editors, in order |
| PropertyEdit.FirstNamed | orcalab/ui/property_edit/tree_property_edit.py:217-221 | the first editor with the name, or the length when there is none |
| PropertyEdit.Editor.constructor | orcalab/ui/property_edit/tree_property_edit.py:176-186 | a new editor holds its name, kind, width and value, is editable, and a tree editor's leaves are its nodes' editors in pre-order |
| PropertyEdit.Editor.ChildTarget | orcalab/ui/property_edit/tree_property_edit.py:215-229 | a child name reaches at most one leaf, the first with that name, and none exactly when no leaf has it |
| PropertyEdit.Editor.SetValue | orcalab/ui/property_edit/tree_property_edit.py:205-207 | a leaf takes the value; a tree editor ignores it |
| PropertyEdit.Editor.SetReadOnly | orcalab/ui/property_edit/tree_property_edit.py:209-213 | a leaf takes the flag; a tree editor passes it to all its leaves |
| PropertyEdit.Editor.SetChildValue | orcalab/ui/property_edit/tree_property_edit.py:215-221 | only the first leaf with the name takes the value; nothing else changes |
| PropertyEdit.Editor.SetChildReadOnly | orcalab/ui/property_edit/tree_property_edit.py:223-229 | only the first leaf with the name takes the flag; nothing else changes |
| PropertyEdit.Snapshot | orcalab/ui/property_edit/tree_property_edit.py:165-170 | what a list of editors holds, one entry per editor |
| PropertyEdit.SnapshotAt | orcalab/ui/property_edit/tree_property_edit.py:165-170 | each entry of the snapshot is its editor's contents |
| PropertyEdit.ChildTargetByName | orcalab/ui/property_edit/tree_property_edit.py:215-229 | a child name reaches a leaf exactly when it is one of the leaf names |
| PropertyEdit.BuildNode | orcalab/ui/property_edit/tree_property_edit.py:65-137 | a node widget's editors are its own, then its children's, in pre-order, with its minimum width raised to the widest child's |
| PropertyEdit.BuildOwnEdits | orcalab/ui/property_edit/tree_property_edit.py:112-118 | the loop makes one fresh leaf editor per property, as specified |
| PropertyEdit.BuildChildren | orcalab/ui/property_edit/tree_property_edit.py:121-137 | the loop builds the children in order, and the widest minimum width among them |
| PropertyEdit.SnapshotConcat | orcalab/ui/property_edit/tree_property_edit.py:167-169 | the snapshot of concatenated editor lists is the concatenation of snapshots |
| PropertyEdit.AllEditsAppend | orcalab/ui/property_edit/tree_property_edit.py:167-169 | the flattened editors of one more node are the old ones followed by that node's |
| PropertyEdit.NewTreeEdit | orcalab/ui/property_edit/tree_property_edit.py:176-203 | a tree editor's leaves are fresh and are the expected editors of the tree data in pre-order |
| PropertyEdit.Lock | orcalab/ui/property_edit/tree_property_edit.py:209-213 | locking sets every entry read-only and keeps the rest |
| PropertyEdit.LockTree | orcalab/ui/property_edit/property_group_edit.py:108-109 | making a tree editor read-only locks every leaf |
| PropertyEdit.MakeEditor | orcalab/ui/property_edit/property_group_edit.py:106-111 | making an editor fails exactly for an unknown type; otherwise it is fresh and made as specified |
| PropertyEdit.LeafObjects | orcalab/ui/property_edit/property_group_edit.py:183-189 | every leaf of every tree editor is among the leaf objects |
| PropertyEdit.TreeTargets | orcalab/ui/property_edit/property_group_edit.py:187-189 | what tree editors forward a name to are leaves with that name |
| PropertyEdit.GroupEdit.constructor | orcalab/ui/property_edit/property_group_edit.py:106-111 | the group holds its actor path, its group and its editors |
| PropertyEdit.GroupEdit.ValueTargets | orcalab/ui/property_edit/property_group_edit.py:183-189 | a value only reaches editors whose name is the key's |
| PropertyEdit.GroupEdit.OnPropertyChanged | orcalab/ui/property_edit/property_group_edit.py:167-189 | echoes from `"ui"` and notifications for another actor or prefix change nothing; otherwise exactly the value targets take the value and no read-only flag changes |
| PropertyEdit.GroupEdit.DeliverValue | orcalab/ui/property_edit/property_group_edit.py:183-189 | the loop gives the value to trees met before the first match and to that match, then stops |
| PropertyEdit.GroupEdit.OnPropertyReadOnlyChanged | orcalab/ui/property_edit/property_group_edit.py:191-211 | the same routing for read-only flags, without a source filter; no value changes |
| PropertyEdit.NewGroupEdit | orcalab/ui/property_edit/property_group_edit.py:106-111 | building a group fails exactly when some property type is unknown; otherwise it has one editor per property, in order |
| Terminal.TerminalTextEdit.constructor | orcalab/ui/terminal_widget.py:14-18 | the input buffer starts empty and nothing is sent |
| Terminal.TerminalTextEdit.KeyPressEvent | orcalab/ui/terminal_widget.py:20-77 | the buffer after a key, and what is sent, are the key's step on the buffer |
| Terminal.TerminalTextEdit.ClearInputBuffer | orcalab/ui/terminal_widget.py:79-81 | the buffer is emptied and nothing is sent |
| Terminal.ControlKeys | orcalab/ui/terminal_widget.py:24-50 | Ctrl+Z and Ctrl+Y are swallowed; Ctrl+C sends `\x03` and Ctrl+D sends `\x04`; none of them changes the buffer |
| Terminal.BackspaceUndoesTyping | orcalab/ui/terminal_widget.py:52-74 | typing a printable character and pressing Backspace gives back the buffer |
| Terminal.NonPrintableNotTyped | orcalab/ui/terminal_widget.py:63-77 | text with a character `isprintable` rejects, such as the full-width space U+3000, leaves the buffer as it was and sends nothing |
| Terminal.TypedLineIsSent | orcalab/ui/terminal_widget.py:29-74 | typing printable text appends it to the buffer, and Enter sends the buffer with a newline and empties it |
| Terminal.TerminalWidget.constructor | orcalab/ui/terminal_widget.py:90-99 | no process attached, not running, empty buffer |
| Terminal.TerminalWidget.SetExternalProcess | orcalab/ui/terminal_widget.py:386-393 | the process is attached without a pty, running, and the buffer is emptied |
| Terminal.TerminalWidget.SetPtyProcess | orcalab/ui/terminal_widget.py:395-402 | the process and its pty are attached, running, and the buffer is emptied |
| Terminal.TerminalWidget.ClearExternalProcess | orcalab/ui/terminal_widget.py:404-411 | no process, not running, and the buffer is emptied |
| CopilotPanel.Candidates | orcalab/ui/copilot.py:201 | the candidates are exactly the assets containing the text, compared in lower case |
| CopilotPanel.FirstExact | orcalab/ui/copilot.py:213 | the first asset equal to the text in lower case, or none exactly when no asset is |
| CopilotPanel.LowerPreservesEquality | orcalab/ui/copilot.py:201-213 | an exact match is also a candidate |
| CopilotPanel.SelectAssetSpec | orcalab/ui/copilot.py:201-214 | nothing is selected exactly when no asset matches; an exact match is preferred; otherwise the first candidate in asset order |
| CopilotPanel.Panel.constructor | orcalab/ui/copilot.py:14-18 | an empty input, submit enabled, nothing emitted |
| CopilotPanel.Panel.HandleAssetCreation | orcalab/ui/copilot.py:183-237 | the selected asset is emitted once and the input cleared; with no match nothing is emitted and at most 10 names are listed; submit ends enabled |
| CopilotPanel.Panel.OnSubmitClicked | orcalab/ui/copilot.py:127-132 | blank input starts nothing; otherwise the stripped text is handled: a selected asset is emitted and the input cleared, and with no selection the input is kept |
| CopilotService.NormalizeServerUrl | orcalab/copilot/service.py:28 | the URL with its trailing slashes removed: a prefix of it that does not end in `/` |
| CopilotService.NormalizeServerUrlStable | orcalab/copilot/service.py:235-242 | normalising twice, or after extra trailing slashes, gives the same URL |
| CopilotService.Service.constructor | orcalab/copilot/service.py:20-28 | the stored URL is normalised and the timeout kept |
| CopilotService.Service.SetServerUrl | orcalab/copilot/service.py:235-242 | the new URL is stored normalised |
| CopilotService.SpawnableName | orcalab/copilot/service.py:270-274 | `asset_` + the uuid with `-` replaced by `_` + `_usda` |
| CopilotService.GetSceneAssetsForOrcaLab | orcalab/copilot/service.py:253-293 | no assets give an empty list; a string or table raises `AttributeError` and any other non-list `TypeError`, as iterating it does; otherwise one entry per asset, in order, with the documented defaults, and it fails exactly when some item does, with the first failing item's error |
| CopilotService.FirstAssetName | orcalab/copilot/service.py:63-67 | no assets give `None`; a list whose first item is a table gives exactly that item's `name`, defaulting to `''` |
| CopilotService.ProgressMessage | orcalab/copilot/service.py:224-230 | the progress text carries `dot_count mod 4` dots |
| CopilotService.ShowProgressDots | orcalab/copilot/service.py:217-233 | one message per tick, the k-th showing k dots modulo 4 |
| CopilotService.ProgressCycles | orcalab/copilot/service.py:224-230 | the text repeats every four ticks and never has more than three dots |
| ProjectInstaller.IsInstallationNeededCases | orcalab/python_project_installer.py:72-117 | with a local path, reinstall exactly when the recorded path differs; with a URL, exactly when the version or URL differs or the directory or project is missing; with neither, always |
| ProjectInstaller.InstallCheck | orcalab/python_project_installer.py:72-117 | the install check raises `NotADirectoryError` exactly when it reaches the project probe, with the version and URL matching and the directory present, and the install path is a regular file; otherwise its answer is the decision with "a root is found" read as "the directory holds a project" |
| ProjectInstaller.FindEditableRoot | orcalab/python_project_installer.py:138-147 | listing a path that is not a directory raises `NotADirectoryError`; otherwise the result is the directory if it holds `pyproject.toml` or `setup.py`, else its sole sub-directory if that does, else `None` exactly when neither does; so a root is found exactly when the directory holds a project |
| ProjectInstaller.RecordedStateIsCurrent | orcalab/python_project_installer.py:179-219 | after an install, the next check with the same settings says "up to date" in developer mode, and in user mode exactly when the directory still holds a project |
| ProjectInstaller.EnsureInstalled | orcalab/python_project_installer.py:155-219 | the install check probes the install directory with `_find_editable_root` once the recorded version and URL match and the directory exists, and fails with `NotADirectoryError` when it is a regular file; otherwise nothing happens when no install is needed, else the outcome is the state update's error (`FileNotFoundError` for a missing developer path, `ValueError` for an empty URL), or that recorded state with the editable root: the local path, else the root found after extraction, else the install directory |
| Report.CollectLastWins | orcalab/report/report.py:154-195 | a package is listed exactly when some line names it, with the version of the last such line |
| Report.ParseDpkg | orcalab/report/report.py:151-161 | blank lines are skipped and every other line gives name and stripped version; a whitespace-only line raises `IndexError` |
| Report.ParseRpm | orcalab/report/report.py:164-174 | lines without fields are skipped; others give name and stripped version |
| Report.ParsePacman | orcalab/report/report.py:177-184 | only lines with two fields count |
| Report.ParseApk | orcalab/report/report.py:187-196 | every line gives the text before the first `-` as name and the rest as version |
| Report.ApkEntrySplitsAtFirstDash | orcalab/report/report.py:190-195 | the apk name has no `-`, and name, `-` and version give back the line |
| Report.GetSystemPackages | orcalab/report/report.py:149-198 | the first available manager wins, in the order dpkg, rpm, pacman, apk; with none the result is empty |
| Report.CsvFields | orcalab/report/report.py:122 | one stripped field per comma-separated piece |
| Report.ParseNvidiaSmi | orcalab/report/report.py:120-131 | the loop yields the records of the lines with at least four fields, in order |
| Report.GpuRecordsShape | orcalab/report/report.py:121-131 | at most one record per line; no field holds a comma, and the name is stripped |
| ProcessFilter.LooksLikeOrcaLabProcess | orcalab/main.py:73-91 | a match always has `orcalab` in the name, the executable or the command line |
| ProcessFilter.NeedleInModuleMarkers | orcalab/main.py:88-89 | every module marker contains `orcalab` |
| ProcessFilter.LooksLikeOrcaLabProcessCases | orcalab/main.py:73-91 | `orcalab` in the name or executable matches; otherwise the command line must hold a module marker, or both `orcalab` and a python marker |
| ProcessFilter.Python3MarkerRedundant | orcalab/main.py:85-86 | the `python3` marker is implied by the `python` marker |

## Left out

- The remote scene: RPC calls are recorded in order as `RemoteCall` entries, and their replies (transforms, selections, dropped items) are parameters. Transport, locks and `await` interleavings are not modelled.
- Qt: signals are modelled as direct calls. Outline models, menus, widgets, icons, collapse/expand and styling are not modelled; the Edit menu's enable rules are the predicates `UndoEnabled`/`RedoEnabled`.
- `LocalScene` is not part of this model. The scene is a value tree. Its `can_add/delete/rename/reparent_actor` checks are modelled as:
  - a name collision is a sibling with the same name;
  - reparenting refuses a move under the actor itself or its descendants;
  - a move within the same parent is not a collision;
  - reparenting removes the actor from its old parent, then inserts it under the new one with `list.insert` at the row.
- Deleting an actor in `LocalScene` may also clear it from the selection; the model keeps the selection as it was.
- The world transform is stored, not derived from the local transforms (the arithmetic is floating point).
- `on_transform_edit`, `record_start_transform` and `record_stop_transform` are not modelled: they are editor-panel plumbing around the same transform fields.
- Saving and loading scenes, the simulation process, and the scheduling of the poll loop are left out. One poll is modelled as `PollS`.
- MainWindow.SetTransformS: a `TransformCommand` whose stored value is `None` raises `NoTransform`. The source would assign `None` to the actor.
- MainWindow.AddItemWithTransformS: the case `transform=None` is not modelled; a transform is always given.
- MainWindow.ReparentFromOutlineS: there is no undo round-trip lemma for reparenting.
- MainWindow.ApplyUndo: a raise inside a command keeps the changes made before it, and the moved index. No rollback is modelled, because the source has none.
- SceneSelect.NormalizeItem: a non-empty table inside a list item renders as `{...}`, because the model's tables do not keep key order; floating-point items cannot be expressed, since JSON values here have no float.
- SceneSelect.StrRepr: `repr()` also escapes code points Unicode leaves unassigned, as `\x`, `\u` or `\U` escapes; the model writes them as they are, since it has no Unicode character database.
- Terminal.TerminalTextEdit.KeyPressEvent: `isprintable` excludes control, separator, format and private-use characters and noncharacters, but code points Unicode leaves unassigned are treated as printable; the model has no Unicode character database.
- CopilotPanel.Candidates: lower-casing folds ASCII and Latin-1 capitals only; Python's `lower()` also folds other scripts (Greek, Cyrillic, …), which the model leaves as they are.
- CopilotPanel.FirstExact: the same Latin-1 limit on lower-casing as `Candidates`.
- SceneActor: `add_child` with a non-actor raising `TypeError` is excluded by the types.
- SceneActor: `repr` is not modelled.
- EventBus: the proxy's per-interface class creation and Python attribute lookup are modelled by the member list. The awaiting of coroutines is the `awaited` flag of a dispatch.
- ConfigService: TOML parsing and file I/O are left out; the layers are parameters.
- LevelDiscovery: reading the cache folder and the JSON files is left out; each pak is its parsed layout or an error.
- CopilotService: the HTTP calls are left out; the progress loop's sleep is left out.
- ProjectInstaller: download, extraction, `pip install` and the state file's I/O are left out; filesystem probes are parameters.
- Report: running the commands is left out, along with the `amd-smi` branch and the non-parsing collectors.
- Terminal: process I/O, the output queue and the timer are left out.
- PropertyEdit: the individual editors' widgets are left out; an editor is its name, kind, width, value and read-only flag.
- Floating point: transforms are carried and compared, never computed on.

## Findings

| source | as written | input that shows it | evidently intended | confidence | as-written member | corrected member |
|---|---|---|---|---|---|---|
| orcalab/ui/main_window.py:1189-1201 | undo of a deletion re-adds the actor with `add_actor`, which appends it as the parent's last child; the row recorded at line 1232 is never read | a root with children `a`, `b`; delete `a`, then undo: the children are `b`, `a` | undo puts the actor back at the recorded row, giving back the scene | not executed | SceneTree.RestoreReordersSiblings, MainWindow.RestoreS, MainWindow.DeleteFromOutlineUndo | SceneTree.DeleteThenRestoreAt, MainWindow.RestoreAtS, MainWindow.UndoAtS, MainWindow.DeleteFromOutlineUndoAt |
