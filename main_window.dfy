/**
 * The editor window's undo/redo history and its handling of the operations
 * the remote scene reports. The behaviour of every operation is first given
 * as a function on a `WindowState` value; the `Window` class below performs
 * the same steps on its fields and is proved to end in the state the
 * function describes.
 */
module MainWindow {
  import opened Wrappers
  import Text
  import ScenePath
  import opened SceneTree

  type Path = ScenePath.Path

  /** The seven undoable edits, each holding what is needed to revert and replay it. */
  datatype Command =
    | SelectionCommand(oldSelection: seq<Path>, newSelection: seq<Path>)
    | CreateGroupCommand(path: Path)
    | CreateActorCommand(actor: Actor, path: Path, row: int)
    | DeleteActorCommand(actor: Actor, path: Path, row: int)
    | RenameActorCommand(oldPath: Path, newPath: Path)
    | ReparentActorCommand(oldPath: Path, oldRow: int, newPath: Path, newRow: int)
    | TransformCommand(actorPath: Path, oldTransform: Option<Transform>, newTransform: Option<Transform>, local: bool)

  /** The calls made to the remote scene, in the order they are made. */
  datatype RemoteCall =
    | PushSelection(paths: seq<Path>)
    | PushAdd(actor: Actor, parent: Path)
    | PushDelete(path: Path)
    | PushRename(path: Path, newName: string)
    | PushReparent(path: Path, newParent: Path)
    | PushTransform(path: Path, t: Transform, local: bool)

  /** The exceptions an operation can raise. */
  datatype Failure =
    | Refused(reason: SceneError)   // a `can_*` check of the scene said no
    | ActorMissing                  // a path that does not resolve
    | ParentNotAGroup               // the `isinstance(parent, GroupActor)` assertion
    | NoParent                      // the root has no parent to work under
    | NoTransform                   // a transform command recorded before any start value

  /** Everything the window's operations read or change. */
  datatype WindowState = WindowState(
    scene: Actor,
    selection: seq<Path>,
    outlineSelection: seq<Path>,
    editedActor: Option<Path>,
    history: seq<Command>,
    index: int,
    startTransform: Option<Transform>,
    endTransform: Option<Transform>,
    simProcessRunning: bool,
    polling: bool,
    remote: seq<RemoteCall>)

  /** Neither the command list nor the index changed. */
  predicate KeepsHistory(s: WindowState, r: WindowState) {
    r.history == s.history && r.index == s.index
  }

  /** The history index points at the last applied command, or is -1. */
  predicate HistoryValid(s: WindowState) {
    -1 <= s.index < |s.history|
  }

  /** The state an operation leaves and the exception it raised, if any. A raise keeps the changes made before it. */
  datatype Outcome = Outcome(state: WindowState, err: Option<Failure>)

  function Done(s: WindowState): Outcome { Outcome(s, None) }

  function Raise(s: WindowState, f: Failure): Outcome { Outcome(s, Some(f)) }

  // ---------------------------------------------------------------- history

  /** `add_command`: the commands after the index are dropped, the new one appended, and the index moved onto it. */
  function AddCommandS(s: WindowState, c: Command): (r: WindowState)
    requires HistoryValid(s)
    ensures HistoryValid(r)
  {
    s.(history := s.history[..s.index + 1] + [c], index := s.index + 1)
  }

  /** The Edit menu's Undo entry is enabled exactly when there is an applied command. */
  predicate UndoEnabled(s: WindowState) { s.index >= 0 }

  /** The Edit menu's Redo entry is enabled exactly when a command was undone and not replaced. */
  predicate RedoEnabled(s: WindowState) { s.index + 1 < |s.history| }

  /** After a command is added it is the one undo would revert, and nothing is left to redo. */
  lemma AddCommandTop(s: WindowState, c: Command)
    requires HistoryValid(s)
    ensures var r := AddCommandS(s, c);
      && HistoryValid(r)
      && r.index == |r.history| - 1 && r.history[r.index] == c
      && r.history[..r.index] == s.history[..s.index + 1]
      && UndoEnabled(r) && !RedoEnabled(r)
  {
    var r := AddCommandS(s, c);
    assert r.history[..r.index] == s.history[..s.index + 1];
  }

  // ---------------------------------------------------------------- unique names

  /** `f"{base}_{k}"` */
  function Suffixed(base: string, k: nat): string {
    base + "_" + Text.Decimal(k)
  }

  lemma SuffixedInjective(base: string, j: nat, k: nat)
    requires Suffixed(base, j) == Suffixed(base, k)
    ensures j == k
  {
    assert Suffixed(base, j)[|base| + 1..] == Text.Decimal(j);
    assert Suffixed(base, k)[|base| + 1..] == Text.Decimal(k);
    Text.DecimalInjective(j, k);
  }

  /**
   * The first k from `k` on whose suffixed name is not taken. Each taken name
   * that is passed is dropped from the set, which is what makes this end.
   */
  function FirstFree(base: string, taken: set<string>, k: nat): (m: nat)
    ensures m >= k && Suffixed(base, m) !in taken
    ensures forall j :: k <= j < m ==> Suffixed(base, j) in taken
    decreases |taken|
  {
    if Suffixed(base, k) in taken then
      var m := FirstFree(base, taken - {Suffixed(base, k)}, k + 1);
      assert Suffixed(base, m) != Suffixed(base, k) by {
        if Suffixed(base, m) == Suffixed(base, k) { SuffixedInjective(base, m, k); }
      }
      m
    else k
  }

  /** The names of a node's children. */
  function ChildNames(g: Actor): set<string> {
    set c | c in g.children :: c.name
  }

  /** The name `make_unique_name` picks among the taken names. */
  function UniqueName(base: string, taken: set<string>): string {
    Suffixed(base, FirstFree(base, taken, 1))
  }

  /** The unique name is `base_k` for the least k >= 1 that is free, so it is free and never the bare base. */
  lemma UniqueNameLeast(base: string, taken: set<string>)
    ensures exists k: nat :: (k >= 1 && UniqueName(base, taken) == Suffixed(base, k)
      && forall j :: 1 <= j < k ==> Suffixed(base, j) in taken)
    ensures UniqueName(base, taken) !in taken && UniqueName(base, taken) != base
  {
    var k := FirstFree(base, taken, 1);
    assert |UniqueName(base, taken)| > |base|;
  }

  /** `make_unique_name(base, parent)`: the parent must resolve to a group. */
  function MakeUniqueNameS(s: WindowState, base: string, parent: Path): (r: Result<string, Failure>)
    ensures r.Ok? <==> Lookup(s.scene, parent).Some? && Lookup(s.scene, parent).value.kind.Group?
  {
    match Lookup(s.scene, parent)
    case None => Err(ActorMissing)
    case Some(g) =>
      if !g.kind.Group? then Err(ParentNotAGroup) else Ok(UniqueName(base, ChildNames(g)))
  }

  /** A name made unique under a group is free among its children, so adding an actor of that name is not refused. */
  lemma UniqueNameAddable(s: WindowState, base: string, parent: Path)
    requires MakeUniqueNameS(s, base, parent).Ok?
    ensures AddRefusal(s.scene, MakeUniqueNameS(s, base, parent).value, parent).None?
  {
    var g := Lookup(s.scene, parent).value;
    var name := MakeUniqueNameS(s, base, parent).value;
    UniqueNameLeast(base, ChildNames(g));
  }

  // ---------------------------------------------------------------- scene operations

  /** Every path resolves: `get_actor_and_path_list` raises otherwise. */
  predicate AllFound(scene: Actor, paths: seq<Path>) {
    forall k :: 0 <= k < |paths| ==> Lookup(scene, paths[k]).Some?
  }

  /**
   * `set_selection(paths, source)`: the outline is updated unless it reported
   * the change, the remote scene is told unless it reported the change, and
   * the first selected actor goes to the property editor.
   */
  function SetSelectionS(s: WindowState, paths: seq<Path>, source: string): (o: Outcome)
    ensures KeepsHistory(s, o.state)
    ensures o.err.None? <==> AllFound(s.scene, paths)
    ensures o.err.Some? ==> o.state == s
    ensures o.err.None? ==> o.state.selection == paths && o.state.scene == s.scene
    ensures o.err.None? ==> (o.state.remote == s.remote <==> source == "remote")
  {
    if !AllFound(s.scene, paths) then Raise(s, ActorMissing)
    else
      Done(s.(
        outlineSelection := if source != "outline" then paths else s.outlineSelection,
        remote := if source != "remote" then s.remote + [PushSelection(paths)] else s.remote,
        selection := paths,
        editedActor := if paths == [] then None else Some(paths[0])))
  }

  /** `add_actor`: a refusal raises; otherwise the local scene and then the remote one get the actor. */
  function AddActorS(s: WindowState, a: Actor, parent: Path): (o: Outcome)
    ensures KeepsHistory(s, o.state)
    ensures o.err.None? <==> AddRefusal(s.scene, a.name, parent).None?
    ensures o.err.Some? ==> o.state == s
    ensures o.err.None? ==> Lookup(o.state.scene, ScenePath.Child(parent, a.name)) == Some(a)
  {
    match AddActor(s.scene, a, parent)
    case Err(e) => Raise(s, Refused(e))
    case Ok(r) =>
      AddThenLookup(s.scene, a, parent);
      Done(s.(scene := r, remote := s.remote + [PushAdd(a, parent)]))
  }

  /** `delete_actor`: a refusal returns silently; otherwise both scenes lose the actor. */
  function DeleteActorS(s: WindowState, p: Path): (r: WindowState)
    ensures KeepsHistory(s, r)
    ensures DeleteActor(s.scene, p).Err? ==> r == s
    ensures Valid(s.scene) && DeleteActor(s.scene, p).Ok? ==> Lookup(r.scene, p).None?
  {
    match DeleteActor(s.scene, p)
    case Err(_) => s
    case Ok(d) =>
      assert Valid(s.scene) ==> Lookup(d, p).None? by {
        if Valid(s.scene) {
          DeleteThenLookup(s.scene, p);
        }
      }
      s.(scene := d, remote := s.remote + [PushDelete(p)])
  }

  /** `rename_actor`: a refusal raises. */
  function RenameActorS(s: WindowState, p: Path, newName: string): (o: Outcome)
    ensures KeepsHistory(s, o.state)
    ensures o.err.None? <==> RenameActor(s.scene, p, newName).Ok?
    ensures o.err.Some? ==> o.state == s
    ensures o.err.None? ==> o.state.scene == RenameActor(s.scene, p, newName).value
  {
    match RenameActor(s.scene, p, newName)
    case Err(e) => Raise(s, Refused(e))
    case Ok(r) => Done(s.(scene := r, remote := s.remote + [PushRename(p, newName)]))
  }

  /** `reparent_actor`: a refusal raises; the remote scene is not told the row. */
  function ReparentActorS(s: WindowState, p: Path, newParent: Path, row: int): (o: Outcome)
    ensures KeepsHistory(s, o.state)
    ensures o.err.None? <==> ReparentActor(s.scene, p, newParent, row).Ok?
    ensures o.err.Some? ==> o.state == s
    ensures o.err.None? ==> o.state.scene == ReparentActor(s.scene, p, newParent, row).value
  {
    match ReparentActor(s.scene, p, newParent, row)
    case Err(e) => Raise(s, Refused(e))
    case Ok(r) => Done(s.(scene := r, remote := s.remote + [PushReparent(p, newParent)]))
  }

  /** `set_transform_from_scene`: only the local scene changes; a missing actor raises. */
  function SetTransformS(s: WindowState, p: Path, t: Option<Transform>, local: bool): (o: Outcome)
    ensures KeepsHistory(s, o.state)
    ensures o.err.None? <==> Lookup(s.scene, p).Some? && t.Some?
    ensures o.err.Some? ==> o.state == s
    ensures o.err.None? ==>
      o.state.remote == s.remote && Lookup(o.state.scene, p).Some?
      && TransformOf(Lookup(o.state.scene, p).value, local) == t.value
  {
    if Lookup(s.scene, p).None? then Raise(s, ActorMissing)
    else if t.None? then Raise(s, NoTransform)
    else
      SetTransformFound(s.scene, p, t.value, local);
      Done(s.(scene := SetTransform(s.scene, p, t.value, local).value))
  }

  /** The local scene change followed by the same change pushed to the remote scene. */
  function SetAndPushTransformS(s: WindowState, p: Path, t: Option<Transform>, local: bool): (o: Outcome)
    ensures KeepsHistory(s, o.state)
    ensures o.err.None? <==> Lookup(s.scene, p).Some? && t.Some?
    ensures o.err.Some? ==> o.state == s
    ensures o.err.None? ==>
      o.state.scene == SetTransformS(s, p, t, local).state.scene
      && o.state.remote == s.remote + [PushTransform(p, t.value, local)]
  {
    var o := SetTransformS(s, p, t, local);
    if o.err.Some? then o else Done(o.state.(remote := o.state.remote + [PushTransform(p, t.value, local)]))
  }

  /**
   * `undo_delete_recursive`: a group is re-created empty with its old name
   * and transform and its children restored into it in order; any other
   * actor is added back as a copy. Everything is appended.
   */
  function RestoreS(s: WindowState, t: Actor, parent: Path): (o: Outcome)
    ensures KeepsHistory(s, o.state)
    decreases t, 1
  {
    if t.kind.Group? then
      var o := AddActorS(s, Shell(t), parent);
      if o.err.Some? then o else RestoreAllS(o.state, t.children, ScenePath.Child(parent, t.name))
    else AddActorS(s, t, parent)
  }

  function RestoreAllS(s: WindowState, ts: seq<Actor>, parent: Path): (o: Outcome)
    ensures KeepsHistory(s, o.state)
    decreases ts, 0
  {
    if ts == [] then Done(s)
    else
      var o := RestoreS(s, ts[0], parent);
      if o.err.Some? then o else RestoreAllS(o.state, ts[1..], parent)
  }

  /** Like `AddActorS`, with the actor inserted at `row` among the parent's children. */
  function AddActorAtS(s: WindowState, a: Actor, parent: Path, row: int): (o: Outcome)
    ensures KeepsHistory(s, o.state)
    ensures o.err.None? <==> AddRefusal(s.scene, a.name, parent).None?
    ensures o.err.Some? ==> o.state == s
  {
    match AddActorAt(s.scene, a, parent, row)
    case Err(e) => Raise(s, Refused(e))
    case Ok(r) => Done(s.(scene := r, remote := s.remote + [PushAdd(a, parent)]))
  }

  /**
   * The corrected restore: as `RestoreS`, except that the restored actor
   * goes back at the row the delete command recorded.
   */
  function RestoreAtS(s: WindowState, t: Actor, parent: Path, row: int): (o: Outcome)
    ensures KeepsHistory(s, o.state)
  {
    if t.kind.Group? then
      var o := AddActorAtS(s, Shell(t), parent, row);
      if o.err.Some? then o else RestoreAllS(o.state, t.children, ScenePath.Child(parent, t.name))
    else AddActorAtS(s, t, parent, row)
  }

  /** On the scene, the window's restore is the scene-level `Restore`; only the scene and the remote log change. */
  lemma {:induction false} RestoreSScene(s: WindowState, t: Actor, parent: Path)
    ensures var o := RestoreS(s, t, parent);
      && (o.err.None? <==> Restore(s.scene, t, parent).Ok?)
      && (o.err.None? ==> o.state.scene == Restore(s.scene, t, parent).value)
      && o.state == s.(scene := o.state.scene, remote := o.state.remote)
    decreases t, 1
  {
    if t.kind.Group? {
      var o := AddActorS(s, Shell(t), parent);
      if o.err.None? {
        RestoreAllSScene(o.state, t.children, ScenePath.Child(parent, t.name));
      }
    }
  }

  lemma {:induction false} RestoreAllSScene(s: WindowState, ts: seq<Actor>, parent: Path)
    ensures var o := RestoreAllS(s, ts, parent);
      && (o.err.None? <==> RestoreAll(s.scene, ts, parent).Ok?)
      && (o.err.None? ==> o.state.scene == RestoreAll(s.scene, ts, parent).value)
      && o.state == s.(scene := o.state.scene, remote := o.state.remote)
    decreases ts, 0
  {
    if ts != [] {
      RestoreSScene(s, ts[0], parent);
      var o := RestoreS(s, ts[0], parent);
      if o.err.None? {
        RestoreAllSScene(o.state, ts[1..], parent);
      }
    }
  }

  // ---------------------------------------------------------------- undo and redo

  /**
   * What `undo` does with a command once the index has moved. A deletion is
   * undone by `undo_delete_recursive`, which appends the actor to its old
   * parent; the row the command recorded is not used.
   */
  function ApplyUndo(s: WindowState, c: Command): (o: Outcome)
    ensures KeepsHistory(s, o.state)
  {
    match c
    case SelectionCommand(was, _) => SetSelectionS(s, was, "")
    case CreateGroupCommand(p) => Done(DeleteActorS(s, p))
    case CreateActorCommand(_, p, _) => Done(DeleteActorS(s, p))
    case DeleteActorCommand(a, p, _) =>
      (match ScenePath.Parent(p)
       case None => Raise(s, NoParent)
       case Some(pp) => RestoreS(s, a, pp))
    case RenameActorCommand(was, now) =>
      if Lookup(s.scene, now).None? then Raise(s, ActorMissing)
      else RenameActorS(s, now, ScenePath.Name(was))
    case ReparentActorCommand(was, wasRow, now, _) =>
      if Lookup(s.scene, now).None? then Raise(s, ActorMissing)
      else
        (match ScenePath.Parent(was)
         case None => Raise(s, NoParent)
         case Some(pp) => ReparentActorS(s, now, pp, wasRow))
    case TransformCommand(p, t, _, local) => SetAndPushTransformS(s, p, t, local)
  }

  /** What `redo` does with a command once the index has moved. */
  function ApplyRedo(s: WindowState, c: Command): (o: Outcome)
    ensures KeepsHistory(s, o.state)
  {
    match c
    case SelectionCommand(_, now) => SetSelectionS(s, now, "")
    case CreateGroupCommand(p) =>
      (match ScenePath.Parent(p)
       case None => Raise(s, NoParent)
       case Some(pp) => AddActorS(s, NewGroup(ScenePath.Name(p)), pp))
    case CreateActorCommand(a, p, _) =>
      (match ScenePath.Parent(p)
       case None => Raise(s, NoParent)
       case Some(pp) => AddActorS(s, a, pp))
    case DeleteActorCommand(_, p, _) => Done(DeleteActorS(s, p))
    case RenameActorCommand(was, now) =>
      if Lookup(s.scene, was).None? then Raise(s, ActorMissing)
      else RenameActorS(s, was, ScenePath.Name(now))
    case ReparentActorCommand(was, _, now, nowRow) =>
      if Lookup(s.scene, was).None? then Raise(s, ActorMissing)
      else
        (match ScenePath.Parent(now)
         case None => Raise(s, NoParent)
         case Some(pp) => ReparentActorS(s, was, pp, nowRow))
    case TransformCommand(p, _, t, local) => SetAndPushTransformS(s, p, t, local)
  }

  /** `undo`: nothing at index -1; otherwise the index moves down first and the command at the old index is reverted. */
  function UndoS(s: WindowState): (o: Outcome)
    requires HistoryValid(s)
    ensures HistoryValid(o.state) && o.state.history == s.history
    ensures !UndoEnabled(s) ==> o == Done(s)
    ensures UndoEnabled(s) ==> o.state.index == s.index - 1 && RedoEnabled(o.state)
  {
    if s.index < 0 then Done(s)
    else ApplyUndo(s.(index := s.index - 1), s.history[s.index])
  }

  /**
   * The corrected undo: as `ApplyUndo`, except that a deletion is undone by
   * `RestoreAtS`, which puts the actor back at the row the command recorded.
   */
  function ApplyUndoAt(s: WindowState, c: Command): (o: Outcome)
    ensures KeepsHistory(s, o.state)
    ensures !c.DeleteActorCommand? ==> o == ApplyUndo(s, c)
  {
    match c
    case DeleteActorCommand(a, p, row) =>
      (match ScenePath.Parent(p)
       case None => Raise(s, NoParent)
       case Some(pp) => RestoreAtS(s, a, pp, row))
    case _ => ApplyUndo(s, c)
  }

  /** The corrected `undo`: as `UndoS`, reverting the command with `ApplyUndoAt`. */
  function UndoAtS(s: WindowState): (o: Outcome)
    requires HistoryValid(s)
    ensures HistoryValid(o.state) && o.state.history == s.history
    ensures !UndoEnabled(s) ==> o == Done(s)
    ensures UndoEnabled(s) ==> o.state.index == s.index - 1 && RedoEnabled(o.state)
    ensures UndoEnabled(s) && !s.history[s.index].DeleteActorCommand? ==> o == UndoS(s)
  {
    if s.index < 0 then Done(s)
    else ApplyUndoAt(s.(index := s.index - 1), s.history[s.index])
  }

  /** `redo`: nothing when no command is ahead; otherwise the index moves up first and that command is replayed. */
  function RedoS(s: WindowState): (o: Outcome)
    requires HistoryValid(s)
    ensures HistoryValid(o.state) && o.state.history == s.history
    ensures !RedoEnabled(s) ==> o == Done(s)
    ensures RedoEnabled(s) ==> o.state.index == s.index + 1 && UndoEnabled(o.state)
  {
    if s.index + 1 >= |s.history| then Done(s)
    else ApplyRedo(s.(index := s.index + 1), s.history[s.index + 1])
  }

  // ---------------------------------------------------------------- recorded edits

  /** `transform_change_command`: the stored start and end values become one transform command. */
  function TransformChangeCommandS(s: WindowState, p: Path, local: bool): (r: WindowState)
    requires HistoryValid(s)
    ensures HistoryValid(r) && r.scene == s.scene && r.remote == s.remote
    ensures r.index == s.index + 1 && !RedoEnabled(r)
    ensures r.history[r.index] == TransformCommand(p, s.startTransform, s.endTransform, local)
  {
    AddCommandTop(s, TransformCommand(p, s.startTransform, s.endTransform, local));
    AddCommandS(s, TransformCommand(p, s.startTransform, s.endTransform, local))
  }

  /**
   * `set_selection_from_outline`: when the selection differs, a selection
   * command is recorded first and the selection set without updating the outline.
   */
  function SetSelectionFromOutlineS(s: WindowState, paths: seq<Path>): (o: Outcome)
    requires HistoryValid(s)
    ensures HistoryValid(o.state)
    ensures o.err.None? <==> AllFound(s.scene, paths)
    ensures o.err.Some? || s.selection == paths ==> o.state == s
    ensures o.err.None? ==> o.state.selection == paths && o.state.scene == s.scene
    ensures o.err.None? && s.selection != paths ==>
      o.state.index == s.index + 1 && o.state.history[o.state.index] == SelectionCommand(s.selection, paths)
  {
    if !AllFound(s.scene, paths) then Raise(s, ActorMissing)
    else if s.selection == paths then Done(s)
    else
      AddCommandTop(s, SelectionCommand(s.selection, paths));
      SetSelectionS(AddCommandS(s, SelectionCommand(s.selection, paths)), paths, "outline")
  }

  /** `set_selection_from_remote_scene`: the same, without telling the remote scene. */
  function SetSelectionFromRemoteS(s: WindowState, paths: seq<Path>): (o: Outcome)
    requires HistoryValid(s)
    ensures HistoryValid(o.state) && o.state.remote == s.remote && o.state.scene == s.scene
    ensures s.selection == paths ==> o == Done(s)
    ensures s.selection != paths ==>
      o.state.index == s.index + 1 && o.state.history[o.state.index] == SelectionCommand(s.selection, paths)
      && (o.err.None? <==> AllFound(s.scene, paths))
      && (o.err.None? ==> o.state.selection == paths)
  {
    if s.selection == paths then Done(s)
    else
      AddCommandTop(s, SelectionCommand(s.selection, paths));
      SetSelectionS(AddCommandS(s, SelectionCommand(s.selection, paths)), paths, "remote")
  }

  /** Adds the actor and, if that did not raise, records the command. */
  function AddThenRecord(s: WindowState, a: Actor, parent: Path, c: Command): (o: Outcome)
    requires HistoryValid(s)
    ensures HistoryValid(o.state)
    ensures o.err.None? <==> AddRefusal(s.scene, a.name, parent).None?
    ensures o.err.Some? ==> o.state == s
    ensures o.err.None? ==>
      o.state.index == s.index + 1 && o.state.history[o.state.index] == c
      && !RedoEnabled(o.state) && Lookup(o.state.scene, ScenePath.Child(parent, a.name)) == Some(a)
      && Lookup(s.scene, ScenePath.Child(parent, a.name)).None?
  {
    var o := AddActorS(s, a, parent);
    if o.err.Some? then o
    else
      FreeNameAbsent(s.scene, a.name, parent);
      AddCommandTop(o.state, c);
      Done(AddCommandS(o.state, c))
  }

  /**
   * `add_group_actor_from_outline`: under the actor, or under its parent when
   * the actor is not a group, a new group named `group_k` is added and recorded.
   */
  function AddGroupFromOutlineS(s: WindowState, at: Path): (o: Outcome)
    requires HistoryValid(s)
    ensures HistoryValid(o.state)
    ensures o.err.Some? ==> o.state == s
    ensures o.err.None? ==>
      o.state.index == s.index + 1 && o.state.history[o.state.index].CreateGroupCommand?
      && Lookup(o.state.scene, o.state.history[o.state.index].path).Some?
      && Lookup(s.scene, o.state.history[o.state.index].path).None?
  {
    match Lookup(s.scene, at)
    case None => Raise(s, ActorMissing)
    case Some(n) =>
      var parent := if n.kind.Group? then Some(at) else ScenePath.Parent(at);
      if parent.None? then Raise(s, NoParent)
      else
        match MakeUniqueNameS(s, "group", parent.value)
        case Err(f) => Raise(s, f)
        case Ok(name) =>
          AddThenRecord(s, NewGroup(name), parent.value, CreateGroupCommand(ScenePath.Child(parent.value, name)))
  }

  /**
   * `delete_actor_from_outline`: the command keeps the actor, its path and
   * its row among its siblings, and is recorded even when the deletion
   * itself is refused.
   */
  function DeleteFromOutlineS(s: WindowState, p: Path): (o: Outcome)
    requires HistoryValid(s)
    ensures HistoryValid(o.state)
    ensures o.err.None? <==> Lookup(s.scene, p).Some? && p.segments != []
    ensures o.err.Some? ==> o.state == s
    ensures o.err.None? ==>
      o.state.index == s.index + 1 && o.state.history[o.state.index].DeleteActorCommand?
      && o.state.history[o.state.index].actor == Lookup(s.scene, p).value
      && o.state.history[o.state.index].path == p
  {
    match Lookup(s.scene, p)
    case None => Raise(s, ActorMissing)
    case Some(n) =>
      if p.segments == [] then Raise(s, NoParent)
      else
        ParentFound(s.scene, p);
        var siblings := Find(s.scene, Init(p.segments)).value.children;
        var c := DeleteActorCommand(n, p, ChildIndex(siblings, n.name));
        Done(AddCommandS(DeleteActorS(s, p), c))
  }

  /** `reparent_from_outline`: the command keeps the old path and row and the new path and row. */
  function ReparentFromOutlineS(s: WindowState, p: Path, newParent: Path, row: int): (o: Outcome)
    requires HistoryValid(s)
    ensures HistoryValid(o.state)
    ensures o.err.None? <==> ReparentActor(s.scene, p, newParent, row).Ok?
    ensures o.err.Some? ==> o.state == s
    ensures o.err.None? ==>
      o.state.scene == ReparentActor(s.scene, p, newParent, row).value
      && o.state.index == s.index + 1 && o.state.history[o.state.index].ReparentActorCommand?
      && o.state.history[o.state.index].oldPath == p
      && o.state.history[o.state.index].newPath == ScenePath.Child(newParent, ScenePath.Name(p))
      && o.state.history[o.state.index].newRow == row
  {
    if Lookup(s.scene, p).None? || Lookup(s.scene, newParent).None? then Raise(s, ActorMissing)
    else if p.segments == [] then Raise(s, NoParent)
    else
      var name := Last(p.segments);
      ParentFound(s.scene, p);
      var siblings := Find(s.scene, Init(p.segments)).value.children;
      var c := ReparentActorCommand(p, ChildIndex(siblings, name), ScenePath.Child(newParent, name), row);
      var o := ReparentActorS(s, p, newParent, row);
      if o.err.Some? then o else Done(AddCommandS(o.state, c))
  }

  /** `rename_undoable`: the command keeps the old path and the sibling path with the new name. */
  function RenameUndoableS(s: WindowState, p: Path, newName: string): (o: Outcome)
    requires HistoryValid(s)
    ensures HistoryValid(o.state)
    ensures o.err.None? <==> RenameActor(s.scene, p, newName).Ok?
    ensures o.err.Some? ==> o.state == s
    ensures o.err.None? ==>
      o.state.scene == RenameActor(s.scene, p, newName).value
      && o.state.index == s.index + 1
      && o.state.history[o.state.index] == RenameActorCommand(p, ScenePath.Child(ScenePath.Parent(p).value, newName))
  {
    if Lookup(s.scene, p).None? then Raise(s, ActorMissing)
    else if p.segments == [] then Raise(s, NoParent)
    else
      var c := RenameActorCommand(p, ScenePath.Child(ScenePath.Parent(p).value, newName));
      var o := RenameActorS(s, p, newName);
      if o.err.Some? then o else Done(AddCommandS(o.state, c))
  }

  /** An asset actor named after the item, at the transform. */
  function NewAsset(name: string, spawnable: string, t: Transform): Actor {
    Actor(name, Asset(spawnable), t, t, [])
  }

  /**
   * `add_item_to_scene_with_transform`: a new asset with a unique name
   * `item_k` under the parent, recorded as a creation.
   */
  function AddItemWithTransformS(s: WindowState, item: string, spawnable: string, parent: Path, t: Transform): (o: Outcome)
    requires HistoryValid(s)
    ensures HistoryValid(o.state)
    ensures o.err.None? <==> Lookup(s.scene, parent).Some? && Lookup(s.scene, parent).value.kind.Group?
    ensures o.err.Some? ==> o.state == s
    ensures o.err.None? ==> o.state.index == s.index + 1
    ensures o.err.None? ==>
      var c := o.state.history[o.state.index];
      && c.CreateActorCommand?
      && c.actor.kind == Asset(spawnable) && c.actor.transform == t
      && Lookup(o.state.scene, c.path) == Some(c.actor) && Lookup(s.scene, c.path).None?
  {
    match MakeUniqueNameS(s, item, parent)
    case Err(f) => Raise(s, f)
    case Ok(name) =>
      UniqueNameAddable(s, item, parent);
      var a := NewAsset(name, spawnable, t);
      AddThenRecord(s, a, parent, CreateActorCommand(a, ScenePath.Child(parent, name), -1))
  }

  /** `add_item_to_scene`: the same at the identity transform, with the item as its own spawnable. */
  function AddItemS(s: WindowState, item: string, parent: Path): (o: Outcome)
    requires HistoryValid(s)
    ensures HistoryValid(o.state)
    ensures o.err.None? <==> Lookup(s.scene, parent).Some? && Lookup(s.scene, parent).value.kind.Group?
    ensures o.err.Some? ==> o.state == s
    ensures o.err.None? ==> o.state.index == s.index + 1
    ensures o.err.None? ==>
      var c := o.state.history[o.state.index];
      && c.CreateActorCommand? && c.actor.kind == Asset(item) && c.actor.transform == Identity
      && Lookup(o.state.scene, c.path) == Some(c.actor) && Lookup(s.scene, c.path).None?
  {
    AddItemWithTransformS(s, item, item, parent, Identity)
  }

  /** `add_item_drag`: the same under the root at the dropped transform. */
  function AddItemDragS(s: WindowState, item: string, t: Transform): (o: Outcome)
    requires HistoryValid(s)
    ensures HistoryValid(o.state)
    ensures o.err.None? <==> s.scene.kind.Group?
    ensures o.err.Some? ==> o.state == s
    ensures o.err.None? ==> o.state.index == s.index + 1
    ensures o.err.None? ==>
      var c := o.state.history[o.state.index];
      && c.CreateActorCommand? && c.actor.kind == Asset(item) && c.actor.transform == t
      && ScenePath.Parent(c.path) == Some(ScenePath.Root)
      && Lookup(o.state.scene, c.path) == Some(c.actor) && Lookup(s.scene, c.path).None?
  {
    AddItemWithTransformS(s, item, item, ScenePath.Root, t)
  }

  /** `on_copilot_add_group`: a group at exactly the given path, with no unique-name step. */
  function CopilotAddGroupS(s: WindowState, p: Path): (o: Outcome)
    requires HistoryValid(s)
    ensures HistoryValid(o.state)
    ensures o.err.Some? ==> o.state == s
    ensures o.err.None? ==>
      o.state.index == s.index + 1 && o.state.history[o.state.index] == CreateGroupCommand(p)
      && Lookup(o.state.scene, p) == Some(NewGroup(ScenePath.Name(p)))
  {
    match ScenePath.Parent(p)
    case None => Raise(s, NoParent)
    case Some(pp) =>
      ScenePath.ChildOfParent(p);
      AddThenRecord(s, NewGroup(ScenePath.Name(p)), pp, CreateGroupCommand(p))
  }

  // ---------------------------------------------------------------- pending operations

  const StartLocalPrefix: string := "start_local_transform_change:"
  const EndLocalPrefix: string := "end_local_transform_change:"
  const StartWorldPrefix: string := "start_world_transform_change:"
  const EndWorldPrefix: string := "end_world_transform_change:"
  const LocalPrefix: string := "local_transform_change:"
  const WorldPrefix: string := "world_transform_change:"
  const SelectionPrefix: string := "selection_change"
  const AddItemPrefix: string := "add_item"

  /** The eight prefixes, in the order the handler tests them. */
  const Prefixes: seq<string> := [StartLocalPrefix, EndLocalPrefix, StartWorldPrefix, EndWorldPrefix,
    LocalPrefix, WorldPrefix, SelectionPrefix, AddItemPrefix]

  /** An operation string read by its prefix. */
  datatype Token =
    | StartTransform(path: Path, local: bool)
    | EndTransform(path: Path, local: bool)
    | LiveTransform(path: Path, local: bool)
    | SelectionChange
    | AddItem
    | Unrecognised

  /** `Path(op[len(prefix):])` */
  function PathAfter(op: string, prefix: string): Path
    requires Text.StartsWith(op, prefix)
  {
    ScenePath.Parse(op[|prefix|..])
  }

  /** The prefix tests of `_process_pending_operation`, as one decision; `PrefixesExclusive` shows at most one can hold. */
  function Decode(op: string): Token {
    if Text.StartsWith(op, StartLocalPrefix) then StartTransform(PathAfter(op, StartLocalPrefix), true)
    else if Text.StartsWith(op, EndLocalPrefix) then EndTransform(PathAfter(op, EndLocalPrefix), true)
    else if Text.StartsWith(op, StartWorldPrefix) then StartTransform(PathAfter(op, StartWorldPrefix), false)
    else if Text.StartsWith(op, EndWorldPrefix) then EndTransform(PathAfter(op, EndWorldPrefix), false)
    else if Text.StartsWith(op, LocalPrefix) then LiveTransform(PathAfter(op, LocalPrefix), true)
    else if Text.StartsWith(op, WorldPrefix) then LiveTransform(PathAfter(op, WorldPrefix), false)
    else if Text.StartsWith(op, SelectionPrefix) then SelectionChange
    else if Text.StartsWith(op, AddItemPrefix) then AddItem
    else Unrecognised
  }

  /** Two strings that differ at a position both reach cannot both start the same string. */
  lemma NotBothPrefixes(op: string, a: string, b: string, k: nat)
    requires k < |a| && k < |b| && a[k] != b[k]
    ensures !(Text.StartsWith(op, a) && Text.StartsWith(op, b))
  {
    if Text.StartsWith(op, a) {
      assert op[k] == a[k];
      assert |b| <= |op| ==> op[..|b|][k] == op[k];
    }
  }

  /**
   * No operation string starts with two of the prefixes, so the handler's
   * separate `if` tests act as one dispatch on the prefix that matches.
   */
  lemma PrefixesExclusive(op: string)
    ensures forall i, j :: 0 <= i < j < |Prefixes| ==>
      !(Text.StartsWith(op, Prefixes[i]) && Text.StartsWith(op, Prefixes[j]))
  {
    forall i, j | 0 <= i < j < |Prefixes|
      ensures !(Text.StartsWith(op, Prefixes[i]) && Text.StartsWith(op, Prefixes[j]))
    {
      var a, b := Prefixes[i], Prefixes[j];
      if a[0] != b[0] {
        NotBothPrefixes(op, a, b, 0);
      } else if a[1] != b[1] {
        NotBothPrefixes(op, a, b, 1);
      } else if a[4] != b[4] {
        NotBothPrefixes(op, a, b, 4);
      } else {
        NotBothPrefixes(op, a, b, 6);
      }
    }
  }

  /** The token the remote scene sends for a transform bracket or live change on a path. */
  function StartToken(p: Path, local: bool): string {
    (if local then StartLocalPrefix else StartWorldPrefix) + ScenePath.ToString(p)
  }

  function EndToken(p: Path, local: bool): string {
    (if local then EndLocalPrefix else EndWorldPrefix) + ScenePath.ToString(p)
  }

  function LiveToken(p: Path, local: bool): string {
    (if local then LocalPrefix else WorldPrefix) + ScenePath.ToString(p)
  }

  /** A prefix glued to a printed path is read back as that prefix and that path. */
  lemma PrefixedPath(prefix: string, p: Path)
    requires ScenePath.Valid(p)
    ensures Text.StartsWith(prefix + ScenePath.ToString(p), prefix)
    ensures PathAfter(prefix + ScenePath.ToString(p), prefix) == p
  {
    var op := prefix + ScenePath.ToString(p);
    assert op[..|prefix|] == prefix;
    assert op[|prefix|..] == ScenePath.ToString(p);
    ScenePath.PathRoundTrip(p);
  }

  /** Tokens built from a valid path decode to the operation they name, on that path. */
  lemma TokensDecode(p: Path, local: bool)
    requires ScenePath.Valid(p)
    ensures Decode(StartToken(p, local)) == StartTransform(p, local)
    ensures Decode(EndToken(p, local)) == EndTransform(p, local)
    ensures Decode(LiveToken(p, local)) == LiveTransform(p, local)
  {
    var sp := if local then StartLocalPrefix else StartWorldPrefix;
    var ep := if local then EndLocalPrefix else EndWorldPrefix;
    var lp := if local then LocalPrefix else WorldPrefix;
    PrefixedPath(sp, p);
    PrefixedPath(ep, p);
    PrefixedPath(lp, p);
    assert Prefixes[0] == StartLocalPrefix && Prefixes[1] == EndLocalPrefix && Prefixes[2] == StartWorldPrefix;
    assert Prefixes[3] == EndWorldPrefix && Prefixes[4] == LocalPrefix && Prefixes[5] == WorldPrefix;
    PrefixesExclusive(StartToken(p, local));
    PrefixesExclusive(EndToken(p, local));
    PrefixesExclusive(LiveToken(p, local));
  }

  /** What the remote scene answers to the follow-up queries an operation makes. */
  datatype Replies = Replies(transform: Transform, selection: seq<string>, itemTransform: Transform, itemName: string)

  /** `[Path(p) for p in actor_paths]` */
  function ParseAll(ps: seq<string>): (r: seq<Path>)
    ensures |r| == |ps| && forall k :: 0 <= k < |ps| ==> r[k] == ScenePath.Parse(ps[k])
  {
    if ps == [] then [] else ParseAll(ps[..|ps| - 1]) + [ScenePath.Parse(ps[|ps| - 1])]
  }

  /** The local or the world transform of a node. */
  function TransformOf(n: Actor, local: bool): Transform {
    if local then n.transform else n.world
  }

  /**
   * `_process_pending_operation`: a bracket token stores the actor's current
   * transform as the start or end value, and the end token records the
   * transform command; a live token applies the pending transform locally
   * and pushes it back; the selection and item tokens go through the same
   * recorded paths as edits made in the window. Any transform token whose
   * path does not resolve raises.
   */
  function ProcessS(s: WindowState, op: string, rep: Replies): (o: Outcome)
    requires HistoryValid(s)
    ensures HistoryValid(o.state)
    ensures Decode(op).Unrecognised? ==> o == Done(s)
    ensures Decode(op).StartTransform? || Decode(op).EndTransform? || Decode(op).LiveTransform? ==>
      (o.err.None? <==> Lookup(s.scene, Decode(op).path).Some?)
      && (o.err.Some? ==> o.state == s)
  {
    match Decode(op)
    case StartTransform(p, local) =>
      if Lookup(s.scene, p).None? then Raise(s, ActorMissing)
      else Done(s.(startTransform := Some(TransformOf(Lookup(s.scene, p).value, local))))
    case EndTransform(p, local) =>
      if Lookup(s.scene, p).None? then Raise(s, ActorMissing)
      else Done(TransformChangeCommandS(s.(endTransform := Some(TransformOf(Lookup(s.scene, p).value, local))), p, local))
    case LiveTransform(p, local) =>
      if Lookup(s.scene, p).None? then Raise(s, ActorMissing)
      else SetAndPushTransformS(s, p, Some(rep.transform), local)
    case SelectionChange => SetSelectionFromRemoteS(s, ParseAll(rep.selection))
    case AddItem => AddItemDragS(s, rep.itemName, rep.itemTransform)
    case Unrecognised => Done(s)
  }

  /** The operations in order; the first one that raises ends the batch. */
  function ProcessAllS(s: WindowState, ops: seq<string>, reps: seq<Replies>): (o: Outcome)
    requires HistoryValid(s) && |ops| == |reps|
    ensures HistoryValid(o.state)
    ensures (forall k :: 0 <= k < |ops| ==> Decode(ops[k]).Unrecognised?) ==> o == Done(s)
    decreases |ops|
  {
    if ops == [] then Done(s)
    else
      var o := ProcessS(s, ops[0], reps[0]);
      if o.err.Some? then o else ProcessAllS(o.state, ops[1..], reps[1..])
  }

  /** One poll: the state reached, what was raised, and whether the next poll is scheduled. */
  datatype PollResult = PollResult(state: WindowState, err: Option<Failure>, rescheduled: bool)

  /**
   * One pass of `_query_pending_operation_loop`: nothing when polling was
   * stopped; the operations are dropped while a simulation runs; otherwise
   * they are processed in order, and a raise skips the rescheduling so the
   * polling ends.
   */
  function PollS(s: WindowState, ops: seq<string>, reps: seq<Replies>): (r: PollResult)
    requires HistoryValid(s) && |ops| == |reps|
    ensures HistoryValid(r.state)
    ensures r.rescheduled <==> s.polling && r.err.None?
    ensures !s.polling || s.simProcessRunning ==> r.state == s && r.err.None?
  {
    if !s.polling then PollResult(s, None, false)
    else if s.simProcessRunning then PollResult(s, None, true)
    else
      var o := ProcessAllS(s, ops, reps);
      PollResult(o.state, o.err, o.err.None?)
  }

  // ---------------------------------------------------------------- undo round trips

  /** On the scene, the corrected restore is the scene-level `RestoreAt`; only the scene and the remote log change. */
  lemma RestoreAtSScene(s: WindowState, t: Actor, parent: Path, row: int)
    ensures var o := RestoreAtS(s, t, parent, row);
      && (o.err.None? <==> RestoreAt(s.scene, t, parent, row).Ok?)
      && (o.err.None? ==> o.state.scene == RestoreAt(s.scene, t, parent, row).value)
      && o.state == s.(scene := o.state.scene, remote := o.state.remote)
  {
    if t.kind.Group? {
      var o := AddActorAtS(s, Shell(t), parent, row);
      if o.err.None? {
        RestoreAllSScene(o.state, t.children, ScenePath.Child(parent, t.name));
      }
    }
  }

  /**
   * Deleting from the outline and undoing succeeds and moves the history
   * index back, but the restored actor ends up as its old parent's last
   * child, whatever row it had; redoing deletes it again.
   */
  lemma DeleteFromOutlineUndo(s: WindowState, p: Path)
    requires HistoryValid(s) && Valid(s.scene) && DeleteActor(s.scene, p).Ok?
    ensures p.segments != [] && Lookup(s.scene, p).Some? && Find(s.scene, Init(p.segments)).Some?
    ensures var o := DeleteFromOutlineS(s, p);
      && var n := Lookup(s.scene, p).value;
      && var g := Find(s.scene, Init(p.segments)).value;
      && o.err.None? && o.state.scene == DeleteActor(s.scene, p).value
      && var u := UndoS(o.state);
      && u.err.None? && u.state.index == s.index
      && Find(u.state.scene, Init(p.segments)) == Some(g.(children := RemoveNamed(g.children, n.name) + [n]))
      && RedoS(u.state).state.scene == o.state.scene
  {
    var n := Lookup(s.scene, p).value;
    DeleteThenRestore(s.scene, p);
    var g := Find(s.scene, Init(p.segments)).value;
    var row := ChildIndex(g.children, n.name);
    var o := DeleteFromOutlineS(s, p);
    assert o.state == AddCommandS(DeleteActorS(s, p), DeleteActorCommand(n, p, row));
    var pp := ScenePath.Path(Init(p.segments));
    assert ScenePath.Parent(p) == Some(pp);
    var s1 := o.state.(index := s.index);
    var u := RestoreS(s1, n, pp);
    assert UndoS(o.state) == u;
    RestoreSScene(s1, n, pp);
    var d := DeleteActor(s.scene, p).value;
    DeleteThenRestoreIsAdd(s.scene, p);
    assert u.state.scene == AddActor(d, n, pp).value;
    AddThenDelete(d, n, pp);
    RedoDeletes(u.state, n, p, row, d);
  }

  /** Redoing a recorded deletion whose path resolves deletes it again. */
  lemma RedoDeletes(w: WindowState, n: Actor, p: Path, row: int, d: Actor)
    requires HistoryValid(w) && w.index + 1 < |w.history|
    requires w.history[w.index + 1] == DeleteActorCommand(n, p, row)
    requires DeleteActor(w.scene, p) == Ok(d)
    ensures RedoS(w).err.None? && RedoS(w).state.scene == d
  {
    assert RedoS(w) == Done(DeleteActorS(w.(index := w.index + 1), p));
  }

  /**
   * With the corrected undo, deleting from the outline and undoing gives
   * back the scene exactly, with the actor at its old row, and the history
   * index where it was; redoing deletes it again.
   */
  lemma DeleteFromOutlineUndoAt(s: WindowState, p: Path)
    requires HistoryValid(s) && Valid(s.scene) && DeleteActor(s.scene, p).Ok?
    ensures var o := DeleteFromOutlineS(s, p);
      && o.err.None? && o.state.scene == DeleteActor(s.scene, p).value
      && var u := UndoAtS(o.state);
      && u.err.None? && u.state.scene == s.scene && u.state.index == s.index
      && RedoS(u.state).state.scene == o.state.scene
  {
    var n := Lookup(s.scene, p).value;
    DeleteThenRestoreAt(s.scene, p);
    var g := Find(s.scene, Init(p.segments)).value;
    var row := ChildIndex(g.children, n.name);
    var o := DeleteFromOutlineS(s, p);
    assert o.state == AddCommandS(DeleteActorS(s, p), DeleteActorCommand(n, p, row));
    var pp := ScenePath.Path(Init(p.segments));
    assert ScenePath.Parent(p) == Some(pp);
    var s1 := o.state.(index := s.index);
    assert UndoAtS(o.state) == RestoreAtS(s1, n, pp, row);
    RestoreAtSScene(s1, n, pp, row);
  }

  /** Renaming through the outline and undoing gives back the scene; redoing renames again. */
  lemma RenameUndoableUndo(s: WindowState, p: Path, newName: string)
    requires HistoryValid(s) && Valid(s.scene) && RenameUndoableS(s, p, newName).err.None?
    ensures var o := RenameUndoableS(s, p, newName);
      && o.state.scene == RenameActor(s.scene, p, newName).value
      && var u := UndoS(o.state);
      && u.err.None? && u.state.scene == s.scene && u.state.index == s.index
      && RedoS(u.state).err.None? && RedoS(u.state).state.scene == o.state.scene
  {
    var o := RenameUndoableS(s, p, newName);
    assert RenameActor(s.scene, p, newName).Ok?;
    var g := RenamedParent(s.scene, p, newName);
    RenameThenRenameBack(s.scene, p, newName);
    var now := ScenePath.Child(ScenePath.Parent(p).value, newName);
    assert now == ScenePath.Path(Init(p.segments) + [newName]);
    assert ScenePath.Name(p) == Last(p.segments);
    assert o.state.history[o.state.index] == RenameActorCommand(p, now);
    var u := UndoS(o.state);
    assert u == RenameActorS(o.state.(index := s.index), now, ScenePath.Name(p));
    assert RedoS(u.state) == RenameActorS(u.state.(index := s.index + 1), p, ScenePath.Name(now));
  }

  /**
   * An addition recorded as a creation command: undo deletes the actor and
   * gives back the scene, and redo adds it again.
   */
  lemma AddThenRecordUndo(s: WindowState, a: Actor, parent: Path, c: Command)
    requires HistoryValid(s) && AddThenRecord(s, a, parent, c).err.None?
    requires (c == CreateGroupCommand(ScenePath.Child(parent, a.name)) && a == NewGroup(a.name))
      || (c.CreateActorCommand? && c.actor == a && c.path == ScenePath.Child(parent, a.name))
    ensures var o := AddThenRecord(s, a, parent, c);
      && o.state.scene == AddActor(s.scene, a, parent).value
      && var u := UndoS(o.state);
      && u.err.None? && u.state.scene == s.scene && u.state.index == s.index
      && RedoS(u.state).err.None? && RedoS(u.state).state.scene == o.state.scene
  {
    var o := AddThenRecord(s, a, parent, c);
    var q := ScenePath.Child(parent, a.name);
    AddThenDelete(s.scene, a, parent);
    ScenePath.ParentOfChild(parent, a.name);
    var u := UndoS(o.state);
    assert u == Done(DeleteActorS(o.state.(index := s.index), q));
  }

  /** A group added from the outline is removed again by undo and comes back by redo. */
  lemma AddGroupFromOutlineUndo(s: WindowState, at: Path)
    requires HistoryValid(s) && AddGroupFromOutlineS(s, at).err.None?
    ensures var o := AddGroupFromOutlineS(s, at);
      && var u := UndoS(o.state);
      && u.err.None? && u.state.scene == s.scene && u.state.index == s.index
      && RedoS(u.state).err.None? && RedoS(u.state).state.scene == o.state.scene
  {
    var n := Lookup(s.scene, at).value;
    var parent := if n.kind.Group? then at else ScenePath.Parent(at).value;
    var name := MakeUniqueNameS(s, "group", parent).value;
    AddThenRecordUndo(s, NewGroup(name), parent, CreateGroupCommand(ScenePath.Child(parent, name)));
  }

  /** An item added to the scene is removed again by undo and comes back by redo. */
  lemma AddItemWithTransformUndo(s: WindowState, item: string, spawnable: string, parent: Path, t: Transform)
    requires HistoryValid(s) && AddItemWithTransformS(s, item, spawnable, parent, t).err.None?
    ensures var o := AddItemWithTransformS(s, item, spawnable, parent, t);
      && var u := UndoS(o.state);
      && u.err.None? && u.state.scene == s.scene && u.state.index == s.index
      && RedoS(u.state).err.None? && RedoS(u.state).state.scene == o.state.scene
  {
    var name := MakeUniqueNameS(s, item, parent).value;
    var a := NewAsset(name, spawnable, t);
    AddThenRecordUndo(s, a, parent, CreateActorCommand(a, ScenePath.Child(parent, name), -1));
  }

  /**
   * A selection reported by the remote scene is recorded but not sent back
   * to it; undo restores the previous selection and sends that one.
   */
  lemma RemoteSelectionUndo(s: WindowState, paths: seq<Path>)
    requires HistoryValid(s) && s.selection != paths
    requires AllFound(s.scene, paths) && AllFound(s.scene, s.selection)
    ensures var o := SetSelectionFromRemoteS(s, paths);
      && o.err.None? && o.state.selection == paths && o.state.outlineSelection == paths
      && o.state.remote == s.remote && o.state.scene == s.scene
      && var u := UndoS(o.state);
      && u.err.None? && u.state.selection == s.selection && u.state.index == s.index
      && u.state.remote == s.remote + [PushSelection(s.selection)]
      && RedoS(u.state).state.selection == paths
  {
    var o := SetSelectionFromRemoteS(s, paths);
    assert o.state.history[o.state.index] == SelectionCommand(s.selection, paths);
  }

  /**
   * A transform command whose new value is in the scene: undo puts the old
   * value back, and redo the new one.
   */
  lemma TransformCommandUndo(w: WindowState, scene: Actor, p: Path, t: Transform, local: bool)
    requires HistoryValid(w) && w.index >= 0 && Lookup(scene, p).Some?
    requires w.scene == SetTransform(scene, p, t, local).value
    requires w.history[w.index] == TransformCommand(p, Some(TransformOf(Lookup(scene, p).value, local)), Some(t), local)
    ensures var u := UndoS(w);
      && u.err.None? && u.state.scene == scene && u.state.index == w.index - 1
      && RedoS(u.state).err.None? && RedoS(u.state).state.scene == w.scene
  {
    var n := Lookup(scene, p).value;
    var e := if local then SetLocal(t) else SetWorld(t);
    FindApplyAt(scene, p.segments, e);
    SetTransformBack(scene, p, t, local);
  }

  /** After a transform is set on an actor, the actor is found with that transform. */
  lemma SetTransformFound(scene: Actor, p: Path, t: Transform, local: bool)
    requires Lookup(scene, p).Some?
    ensures Lookup(SetTransform(scene, p, t, local).value, p).Some?
    ensures TransformOf(Lookup(SetTransform(scene, p, t, local).value, p).value, local) == t
  {
    var e := if local then SetLocal(t) else SetWorld(t);
    assert SetTransform(scene, p, t, local) == Ok(ApplyAt(scene, p.segments, e));
    FindApplyAt(scene, p.segments, e);
    assert TransformOf(ApplyLocal(Lookup(scene, p).value, e), local) == t;
  }

  /** A token decoding to a live transform on an actor that resolves sets and pushes the reported transform. */
  lemma LiveStep(s: WindowState, t: string, p: Path, local: bool, r: Replies)
    requires HistoryValid(s) && Decode(t) == LiveTransform(p, local) && Lookup(s.scene, p).Some?
    ensures var o := ProcessS(s, t, r);
      && o.err.None?
      && o.state == s.(scene := SetTransform(s.scene, p, r.transform, local).value,
                       remote := s.remote + [PushTransform(p, r.transform, local)])
      && Lookup(o.state.scene, p).Some?
      && TransformOf(Lookup(o.state.scene, p).value, local) == r.transform
  {
    SetTransformFound(s.scene, p, r.transform, local);
  }

  /** A token decoding to an end transform on an actor that resolves records the command from the stored start value to the current one. */
  lemma EndStep(s: WindowState, t: string, p: Path, local: bool, r: Replies)
    requires HistoryValid(s) && Decode(t) == EndTransform(p, local) && Lookup(s.scene, p).Some?
    ensures ProcessS(s, t, r)
      == Done(AddCommandS(s.(endTransform := Some(TransformOf(Lookup(s.scene, p).value, local))),
                          TransformCommand(p, s.startTransform, Some(TransformOf(Lookup(s.scene, p).value, local)), local)))
  {
  }

  /**
   * A drag on the remote scene: a start token, one live change and an end
   * token on the same actor leave the scene with the new transform and
   * record one transform command from the old value to the new.
   */
  lemma TransformDragRecorded(s: WindowState, p: Path, local: bool, r0: Replies, r1: Replies, r2: Replies)
    requires HistoryValid(s) && ScenePath.Valid(p) && Lookup(s.scene, p).Some?
    ensures var o := ProcessAllS(s, [StartToken(p, local), LiveToken(p, local), EndToken(p, local)], [r0, r1, r2]);
      && o.err.None?
      && o.state.scene == SetTransform(s.scene, p, r1.transform, local).value
      && o.state.index == s.index + 1
      && o.state.history[o.state.index]
        == TransformCommand(p, Some(TransformOf(Lookup(s.scene, p).value, local)), Some(r1.transform), local)
  {
    TokensDecode(p, local);
    DragSteps(s, p, local, StartToken(p, local), LiveToken(p, local), EndToken(p, local), r0, r1, r2);
  }

  /** The drag for any three tokens that decode to its start, live and end operations. */
  lemma DragSteps(s: WindowState, p: Path, local: bool, a: string, b: string, c: string,
                  r0: Replies, r1: Replies, r2: Replies)
    requires HistoryValid(s) && Lookup(s.scene, p).Some?
    requires Decode(a) == StartTransform(p, local) && Decode(b) == LiveTransform(p, local)
    requires Decode(c) == EndTransform(p, local)
    ensures var o := ProcessAllS(s, [a, b, c], [r0, r1, r2]);
      && o.err.None?
      && o.state.scene == SetTransform(s.scene, p, r1.transform, local).value
      && o.state.index == s.index + 1
      && o.state.history[o.state.index]
        == TransformCommand(p, Some(TransformOf(Lookup(s.scene, p).value, local)), Some(r1.transform), local)
  {
    var t0 := TransformOf(Lookup(s.scene, p).value, local);
    var s1 := s.(startTransform := Some(t0));
    assert ProcessS(s, a, r0) == Done(s1);
    LiveStep(s1, b, p, local, r1);
    var s2 := s1.(scene := SetTransform(s.scene, p, r1.transform, local).value,
                  remote := s1.remote + [PushTransform(p, r1.transform, local)]);
    assert ProcessS(s1, b, r1) == Done(s2);
    EndStep(s2, c, p, local, r2);
    var s3 := AddCommandS(s2.(endTransform := Some(r1.transform)), TransformCommand(p, Some(t0), Some(r1.transform), local));
    assert ProcessS(s2, c, r2) == Done(s3);
    assert ProcessAllS(s2, [c], [r2]) == Done(s3) by {
      assert [c][1..] == [] && [r2][1..] == [];
    }
    assert ProcessAllS(s1, [b, c], [r1, r2]) == ProcessAllS(s2, [c], [r2]) by {
      assert [b, c][1..] == [c] && [r1, r2][1..] == [r2];
    }
    assert ProcessAllS(s, [a, b, c], [r0, r1, r2]) == ProcessAllS(s1, [b, c], [r1, r2]) by {
      assert [a, b, c][1..] == [b, c] && [r0, r1, r2][1..] == [r1, r2];
    }
  }

  /** Undoing the drag gives back the scene and redoing it the dragged one. */
  lemma TransformDragUndo(s: WindowState, p: Path, local: bool, r0: Replies, r1: Replies, r2: Replies)
    requires HistoryValid(s) && ScenePath.Valid(p) && Lookup(s.scene, p).Some?
    ensures var o := ProcessAllS(s, [StartToken(p, local), LiveToken(p, local), EndToken(p, local)], [r0, r1, r2]);
      && var u := UndoS(o.state);
      && u.err.None? && u.state.scene == s.scene && u.state.index == s.index
      && RedoS(u.state).err.None? && RedoS(u.state).state.scene == o.state.scene
  {
    TransformDragRecorded(s, p, local, r0, r1, r2);
    var o := ProcessAllS(s, [StartToken(p, local), LiveToken(p, local), EndToken(p, local)], [r0, r1, r2]);
    TransformCommandUndo(o.state, s.scene, p, r1.transform, local);
  }

  // ---------------------------------------------------------------- the window

  /** The window as constructed: empty history at index -1, nothing selected, polling not started. */
  function Initial(scene: Actor): (s: WindowState)
    ensures HistoryValid(s) && !UndoEnabled(s) && !RedoEnabled(s)
  {
    WindowState(scene, [], [], None, [], -1, None, None, false, false, [])
  }

  /**
   * `MainWindow`, reduced to the fields its editing operations read and
   * write. Each method performs the steps of the Python method and ends in
   * the state, with the exception, that the function of the same operation
   * above describes.
   */
  class Window {
    var scene: Actor
    var selection: seq<Path>
    var outlineSelection: seq<Path>
    var editedActor: Option<Path>
    var history: seq<Command>
    var index: int
    var startTransform: Option<Transform>
    var endTransform: Option<Transform>
    var simProcessRunning: bool
    var polling: bool
    var remote: seq<RemoteCall>

    /** The fields as one value. */
    function State(): WindowState
      reads this
    {
      WindowState(scene, selection, outlineSelection, editedActor, history, index,
        startTransform, endTransform, simProcessRunning, polling, remote)
    }

    ghost predicate Valid()
      reads this
    {
      HistoryValid(State())
    }

    constructor (scene0: Actor)
      ensures State() == Initial(scene0) && Valid()
    {
      scene, selection, outlineSelection, editedActor := scene0, [], [], None;
      history, index := [], -1;
      startTransform, endTransform := None, None;
      simProcessRunning, polling, remote := false, false, [];
    }

    method AddCommand(c: Command)
      requires Valid()
      modifies this
      ensures State() == AddCommandS(old(State()), c) && Valid()
    {
      history := history[..index + 1] + [c];
      index := index + 1;
    }

    /** `make_unique_name`: the counter goes up from 1 while the suffixed name is taken. */
    method MakeUniqueName(base: string, parent: Path) returns (r: Result<string, Failure>)
      ensures r == MakeUniqueNameS(State(), base, parent)
    {
      match Lookup(scene, parent)
      case None => r := Err(ActorMissing);
      case Some(g) =>
        if !g.kind.Group? {
          r := Err(ParentNotAGroup);
          return;
        }
        var names := ChildNames(g);
        ghost var m := FirstFree(base, names, 1);
        var counter := 1;
        while Suffixed(base, counter) in names
          invariant 1 <= counter <= m
          invariant forall j :: 1 <= j < counter ==> Suffixed(base, j) in names
          decreases m - counter
        {
          counter := counter + 1;
        }
        r := Ok(Suffixed(base, counter));
    }

    method SetSelection(paths: seq<Path>, source: string) returns (err: Option<Failure>)
      modifies this
      ensures Outcome(State(), err) == SetSelectionS(old(State()), paths, source)
    {
      if !AllFound(scene, paths) {
        return Some(ActorMissing);
      }
      if source != "outline" {
        outlineSelection := paths;
      }
      if source != "remote" {
        remote := remote + [PushSelection(paths)];
      }
      selection := paths;
      editedActor := if paths == [] then None else Some(paths[0]);
      err := None;
    }

    method AddActor(a: Actor, parent: Path) returns (err: Option<Failure>)
      modifies this
      ensures Outcome(State(), err) == AddActorS(old(State()), a, parent)
    {
      match SceneTree.AddActor(scene, a, parent)
      case Err(e) => err := Some(Refused(e));
      case Ok(r) =>
        scene := r;
        remote := remote + [PushAdd(a, parent)];
        err := None;
    }

    /** Like `AddActor`, with the actor inserted at `row`. */
    method AddActorAtRow(a: Actor, parent: Path, row: int) returns (err: Option<Failure>)
      modifies this
      ensures Outcome(State(), err) == AddActorAtS(old(State()), a, parent, row)
    {
      match AddActorAt(scene, a, parent, row)
      case Err(e) => err := Some(Refused(e));
      case Ok(r) =>
        scene := r;
        remote := remote + [PushAdd(a, parent)];
        err := None;
    }

    method DeleteActor(p: Path)
      modifies this
      ensures State() == DeleteActorS(old(State()), p)
    {
      match SceneTree.DeleteActor(scene, p)
      case Err(_) =>
      case Ok(r) =>
        scene := r;
        remote := remote + [PushDelete(p)];
    }

    method RenameActor(p: Path, newName: string) returns (err: Option<Failure>)
      modifies this
      ensures Outcome(State(), err) == RenameActorS(old(State()), p, newName)
    {
      match SceneTree.RenameActor(scene, p, newName)
      case Err(e) => err := Some(Refused(e));
      case Ok(r) =>
        scene := r;
        remote := remote + [PushRename(p, newName)];
        err := None;
    }

    method ReparentActor(p: Path, newParent: Path, row: int) returns (err: Option<Failure>)
      modifies this
      ensures Outcome(State(), err) == ReparentActorS(old(State()), p, newParent, row)
    {
      match SceneTree.ReparentActor(scene, p, newParent, row)
      case Err(e) => err := Some(Refused(e));
      case Ok(r) =>
        scene := r;
        remote := remote + [PushReparent(p, newParent)];
        err := None;
    }

    method SetTransformFromScene(p: Path, t: Option<Transform>, local: bool) returns (err: Option<Failure>)
      modifies this
      ensures Outcome(State(), err) == SetTransformS(old(State()), p, t, local)
    {
      if Lookup(scene, p).None? {
        return Some(ActorMissing);
      }
      if t.None? {
        return Some(NoTransform);
      }
      scene := SetTransform(scene, p, t.value, local).value;
      err := None;
    }

    /** The local change followed by the push to the remote scene. */
    method SetAndPushTransform(p: Path, t: Option<Transform>, local: bool) returns (err: Option<Failure>)
      modifies this
      ensures Outcome(State(), err) == SetAndPushTransformS(old(State()), p, t, local)
    {
      err := SetTransformFromScene(p, t, local);
      if err.None? {
        remote := remote + [PushTransform(p, t.value, local)];
      }
    }

    /** `undo_delete_recursive`, as written: every restored actor is appended. */
    method UndoDeleteRecursive(t: Actor, parent: Path) returns (err: Option<Failure>)
      modifies this
      ensures Outcome(State(), err) == RestoreS(old(State()), t, parent)
      decreases t, 1
    {
      if t.kind.Group? {
        err := AddActor(Shell(t), parent);
        if err.None? {
          err := RestoreChildren(t, parent);
        }
      } else {
        err := AddActor(t, parent);
      }
    }

    /** The loop over a restored group's children. */
    method RestoreChildren(t: Actor, parent: Path) returns (err: Option<Failure>)
      modifies this
      ensures Outcome(State(), err) == RestoreAllS(old(State()), t.children, ScenePath.Child(parent, t.name))
      decreases t, 0
    {
      var here := ScenePath.Child(parent, t.name);
      ghost var s0 := State();
      var i := 0;
      while i < |t.children|
        invariant 0 <= i <= |t.children|
        invariant RestoreAllS(State(), t.children[i..], here) == RestoreAllS(s0, t.children, here)
      {
        assert t.children[i..][0] == t.children[i] && t.children[i..][1..] == t.children[i + 1..];
        err := UndoDeleteRecursive(t.children[i], here);
        if err.Some? {
          return;
        }
        i := i + 1;
      }
      err := None;
    }

    /** The corrected restore: the top actor goes back at the recorded row. */
    method RestoreAtRow(t: Actor, parent: Path, row: int) returns (err: Option<Failure>)
      modifies this
      ensures Outcome(State(), err) == RestoreAtS(old(State()), t, parent, row)
    {
      if t.kind.Group? {
        err := AddActorAtRow(Shell(t), parent, row);
        if err.None? {
          err := RestoreChildren(t, parent);
        }
      } else {
        err := AddActorAtRow(t, parent, row);
      }
    }
 
    /** `undo`: the index moves down before the command at the old index is reverted. */
    method Undo() returns (err: Option<Failure>)
      requires Valid()
      modifies this
      ensures Outcome(State(), err) == UndoS(old(State())) && Valid()
    {
      if index < 0 {
        return None;
      }
      var c := history[index];
      index := index - 1;
      err := RevertCommand(c);
    }

    /** The corrected `undo`: a deletion is reverted at the row it was recorded with. */
    method UndoAt() returns (err: Option<Failure>)
      requires Valid()
      modifies this
      ensures Outcome(State(), err) == UndoAtS(old(State())) && Valid()
    {
      if index < 0 {
        return None;
      }
      var c := history[index];
      index := index - 1;
      match c {
        case DeleteActorCommand(a, p, row) =>
          match ScenePath.Parent(p) {
            case None => err := Some(NoParent);
            case Some(pp) => err := RestoreAtRow(a, pp, row);
          }
        case _ =>
          err := RevertCommand(c);
      }
    }

    /** The `match command` of `undo`. */
    method RevertCommand(c: Command) returns (err: Option<Failure>)
      modifies this
      ensures Outcome(State(), err) == ApplyUndo(old(State()), c)
    {
      match c
      case SelectionCommand(was, _) =>
        err := SetSelection(was, "");
      case CreateGroupCommand(p) =>
        DeleteActor(p);
        err := None;
      case CreateActorCommand(_, p, _) =>
        DeleteActor(p);
        err := None;
      case DeleteActorCommand(a, p, _) =>
        match ScenePath.Parent(p) {
          case None => err := Some(NoParent);
          case Some(pp) => err := UndoDeleteRecursive(a, pp);
        }
      case RenameActorCommand(was, now) =>
        if Lookup(scene, now).None? {
          err := Some(ActorMissing);
        } else {
          err := RenameActor(now, ScenePath.Name(was));
        }
      case ReparentActorCommand(was, wasRow, now, _) =>
        if Lookup(scene, now).None? {
          err := Some(ActorMissing);
        } else {
          match ScenePath.Parent(was) {
            case None => err := Some(NoParent);
            case Some(pp) => err := ReparentActor(now, pp, wasRow);
          }
        }
      case TransformCommand(p, t, _, local) =>
        err := SetAndPushTransform(p, t, local);
    }

    /** `redo`: the index moves up before the command is replayed. */
    method Redo() returns (err: Option<Failure>)
      requires Valid()
      modifies this
      ensures Outcome(State(), err) == RedoS(old(State())) && Valid()
    {
      if index + 1 >= |history| {
        return None;
      }
      var c := history[index + 1];
      index := index + 1;
      err := ReplayCommand(c);
    }

    /** The `match command` of `redo`. */
    method ReplayCommand(c: Command) returns (err: Option<Failure>)
      modifies this
      ensures Outcome(State(), err) == ApplyRedo(old(State()), c)
    {
      match c
      case SelectionCommand(_, now) =>
        err := SetSelection(now, "");
      case CreateGroupCommand(p) =>
        match ScenePath.Parent(p) {
          case None => err := Some(NoParent);
          case Some(pp) => err := AddActor(NewGroup(ScenePath.Name(p)), pp);
        }
      case CreateActorCommand(a, p, _) =>
        match ScenePath.Parent(p) {
          case None => err := Some(NoParent);
          case Some(pp) => err := AddActor(a, pp);
        }
      case DeleteActorCommand(_, p, _) =>
        DeleteActor(p);
        err := None;
      case RenameActorCommand(was, now) =>
        if Lookup(scene, was).None? {
          err := Some(ActorMissing);
        } else {
          err := RenameActor(was, ScenePath.Name(now));
        }
      case ReparentActorCommand(was, _, now, nowRow) =>
        if Lookup(scene, was).None? {
          err := Some(ActorMissing);
        } else {
          match ScenePath.Parent(now) {
            case None => err := Some(NoParent);
            case Some(pp) => err := ReparentActor(was, pp, nowRow);
          }
        }
      case TransformCommand(p, _, t, local) =>
        err := SetAndPushTransform(p, t, local);
    }

    method TransformChangeCommand(p: Path, local: bool)
      requires Valid()
      modifies this
      ensures State() == TransformChangeCommandS(old(State()), p, local) && Valid()
    {
      AddCommand(TransformCommand(p, startTransform, endTransform, local));
    }

    method SetSelectionFromOutline(paths: seq<Path>) returns (err: Option<Failure>)
      requires Valid()
      modifies this
      ensures Outcome(State(), err) == SetSelectionFromOutlineS(old(State()), paths) && Valid()
    {
      if !AllFound(scene, paths) {
        return Some(ActorMissing);
      }
      err := None;
      if selection != paths {
        AddCommand(SelectionCommand(selection, paths));
        err := SetSelection(paths, "outline");
      }
    }

    method SetSelectionFromRemoteScene(paths: seq<Path>) returns (err: Option<Failure>)
      requires Valid()
      modifies this
      ensures Outcome(State(), err) == SetSelectionFromRemoteS(old(State()), paths) && Valid()
    {
      err := None;
      if selection != paths {
        AddCommand(SelectionCommand(selection, paths));
        err := SetSelection(paths, "remote");
      }
    }

    /** The add followed, if it did not raise, by the recording of the command. */
    method AddAndRecord(a: Actor, parent: Path, c: Command) returns (err: Option<Failure>)
      requires Valid()
      modifies this
      ensures Outcome(State(), err) == AddThenRecord(old(State()), a, parent, c) && Valid()
    {
      err := AddActor(a, parent);
      if err.None? {
        AddCommand(c);
      }
    }

    method AddGroupActorFromOutline(at: Path) returns (err: Option<Failure>)
      requires Valid()
      modifies this
      ensures Outcome(State(), err) == AddGroupFromOutlineS(old(State()), at) && Valid()
    {
      match Lookup(scene, at)
      case None => err := Some(ActorMissing);
      case Some(n) =>
        var parent := if n.kind.Group? then Some(at) else ScenePath.Parent(at);
        if parent.None? {
          return Some(NoParent);
        }
        var name := MakeUniqueName("group", parent.value);
        match name
        case Err(f) => err := Some(f);
        case Ok(nm) =>
          err := AddAndRecord(NewGroup(nm), parent.value, CreateGroupCommand(ScenePath.Child(parent.value, nm)));
    }

    method DeleteActorFromOutline(p: Path) returns (err: Option<Failure>)
      requires Valid()
      modifies this
      ensures Outcome(State(), err) == DeleteFromOutlineS(old(State()), p) && Valid()
    {
      match Lookup(scene, p)
      case None => err := Some(ActorMissing);
      case Some(n) =>
        if p.segments == [] {
          return Some(NoParent);
        }
        ParentFound(scene, p);
        var siblings := Find(scene, Init(p.segments)).value.children;
        var c := DeleteActorCommand(n, p, ChildIndex(siblings, n.name));
        DeleteActor(p);
        AddCommand(c);
        err := None;
    }

    method ReparentFromOutline(p: Path, newParent: Path, row: int) returns (err: Option<Failure>)
      requires Valid()
      modifies this
      ensures Outcome(State(), err) == ReparentFromOutlineS(old(State()), p, newParent, row) && Valid()
    {
      if Lookup(scene, p).None? || Lookup(scene, newParent).None? {
        return Some(ActorMissing);
      }
      if p.segments == [] {
        return Some(NoParent);
      }
      var name := Last(p.segments);
      ParentFound(scene, p);
      var siblings := Find(scene, Init(p.segments)).value.children;
      var c := ReparentActorCommand(p, ChildIndex(siblings, name), ScenePath.Child(newParent, name), row);
      err := ReparentActor(p, newParent, row);
      if err.None? {
        AddCommand(c);
      }
    }

    method RenameUndoable(p: Path, newName: string) returns (err: Option<Failure>)
      requires Valid()
      modifies this
      ensures Outcome(State(), err) == RenameUndoableS(old(State()), p, newName) && Valid()
    {
      if Lookup(scene, p).None? {
        return Some(ActorMissing);
      }
      if p.segments == [] {
        return Some(NoParent);
      }
      var c := RenameActorCommand(p, ScenePath.Child(ScenePath.Parent(p).value, newName));
      err := RenameActor(p, newName);
      if err.None? {
        AddCommand(c);
      }
    }

    method AddItemToSceneWithTransform(item: string, spawnable: string, parent: Path, t: Transform)
      returns (err: Option<Failure>)
      requires Valid()
      modifies this
      ensures Outcome(State(), err) == AddItemWithTransformS(old(State()), item, spawnable, parent, t) && Valid()
    {
      var name := MakeUniqueName(item, parent);
      match name
      case Err(f) => err := Some(f);
      case Ok(nm) =>
        var a := NewAsset(nm, spawnable, t);
        err := AddAndRecord(a, parent, CreateActorCommand(a, ScenePath.Child(parent, nm), -1));
    }

    method AddItemToScene(item: string, parent: Path) returns (err: Option<Failure>)
      requires Valid()
      modifies this
      ensures Outcome(State(), err) == AddItemS(old(State()), item, parent) && Valid()
    {
      err := AddItemToSceneWithTransform(item, item, parent, Identity);
    }

    method AddItemDrag(item: string, t: Transform) returns (err: Option<Failure>)
      requires Valid()
      modifies this
      ensures Outcome(State(), err) == AddItemDragS(old(State()), item, t) && Valid()
    {
      err := AddItemToSceneWithTransform(item, item, ScenePath.Root, t);
    }

    method OnCopilotAddGroup(p: Path) returns (err: Option<Failure>)
      requires Valid()
      modifies this
      ensures Outcome(State(), err) == CopilotAddGroupS(old(State()), p) && Valid()
    {
      match ScenePath.Parent(p)
      case None => err := Some(NoParent);
      case Some(pp) => err := AddAndRecord(NewGroup(ScenePath.Name(p)), pp, CreateGroupCommand(p));
    }

    /** `_process_pending_operation` on one operation string and the replies to its queries. */
    method ProcessPendingOperation(op: string, rep: Replies) returns (err: Option<Failure>)
      requires Valid()
      modifies this
      ensures Outcome(State(), err) == ProcessS(old(State()), op, rep) && Valid()
    {
      match Decode(op)
      case StartTransform(p, local) =>
        if Lookup(scene, p).None? {
          return Some(ActorMissing);
        }
        startTransform := Some(TransformOf(Lookup(scene, p).value, local));
        err := None;
      case EndTransform(p, local) =>
        if Lookup(scene, p).None? {
          return Some(ActorMissing);
        }
        endTransform := Some(TransformOf(Lookup(scene, p).value, local));
        TransformChangeCommand(p, local);
        err := None;
      case LiveTransform(p, local) =>
        if Lookup(scene, p).None? {
          return Some(ActorMissing);
        }
        err := SetAndPushTransform(p, Some(rep.transform), local);
      case SelectionChange =>
        err := SetSelectionFromRemoteScene(ParseAll(rep.selection));
      case AddItem =>
        err := AddItemDrag(rep.itemName, rep.itemTransform);
      case Unrecognised =>
        err := None;
    }

    /**
     * One pass of `_query_pending_operation_loop`: `rescheduled` says whether
     * the next pass is scheduled, which a raise prevents.
     */
    method QueryPendingOperationLoop(ops: seq<string>, reps: seq<Replies>) returns (err: Option<Failure>, rescheduled: bool)
      requires Valid() && |ops| == |reps|
      modifies this
      ensures PollResult(State(), err, rescheduled) == PollS(old(State()), ops, reps) && Valid()
    {
      if !polling {
        return None, false;
      }
      if !simProcessRunning {
        ghost var s0 := State();
        var i := 0;
        while i < |ops|
          invariant 0 <= i <= |ops| && Valid()
          invariant ProcessAllS(State(), ops[i..], reps[i..]) == ProcessAllS(s0, ops, reps)
        {
          assert ops[i..][0] == ops[i] && ops[i..][1..] == ops[i + 1..];
          assert reps[i..][0] == reps[i] && reps[i..][1..] == reps[i + 1..];
          err := ProcessPendingOperation(ops[i], reps[i]);
          if err.Some? {
            return err, false;
          }
          i := i + 1;
        }
      }
      return None, true;
    }
  }
}
