/**
 * The local mirror of the scene: a tree of actors under a group named `root`.
 * Every mutation is an edit applied to the node at some path, so the facts
 * about edits are proved once, for a single node, and lifted to the tree.
 */
module SceneTree {
  import opened Wrappers
  import ScenePath

  /** Position, rotation quaternion and scale; carried and compared, never computed on. */
  datatype Transform = Transform(position: seq<real>, rotation: seq<real>, scale: real)

  const Identity: Transform := Transform([0.0, 0.0, 0.0], [1.0, 0.0, 0.0, 0.0], 1.0)

  /** `GroupActor` or `AssetActor` with the name of the spawnable it shows. */
  datatype Kind = Group | Asset(spawnable: string)

  /** An actor with its local and world transforms and, for a group, its ordered children. */
  datatype Actor = Actor(name: string, kind: Kind, transform: Transform, world: Transform, children: seq<Actor>)

  /** `GroupActor(name=…)`: empty, at the identity. */
  function NewGroup(name: string): (g: Actor)
    ensures g.name == name && g.kind == Group && g.children == []
  {
    Actor(name, Group, Identity, Identity, [])
  }

  /** A fresh scene: the root group alone. */
  const EmptyScene: Actor := NewGroup("root")

  predicate DistinctNames(cs: seq<Actor>) {
    forall i, j :: 0 <= i < j < |cs| ==> cs[i].name != cs[j].name
  }

  /** Sibling names are unique and only groups have children, all the way down. */
  predicate Valid(a: Actor) {
    && (a.kind.Asset? ==> a.children == [])
    && DistinctNames(a.children)
    && forall i :: 0 <= i < |a.children| ==> Valid(a.children[i])
  }

  /** The position of the first child with the name, or -1. */
  function ChildIndex(cs: seq<Actor>, name: string): (i: int)
    ensures -1 <= i < |cs|
    ensures 0 <= i ==> cs[i].name == name && forall k :: 0 <= k < i ==> cs[k].name != name
    ensures i == -1 <==> forall k :: 0 <= k < |cs| ==> cs[k].name != name
  {
    if cs == [] then -1
    else if cs[0].name == name then 0
    else
      var j := ChildIndex(cs[1..], name);
      if j < 0 then -1 else j + 1
  }

  /** Among distinct names, the child found is the only one with the name. */
  lemma ChildIndexOfDistinct(cs: seq<Actor>, k: nat)
    requires DistinctNames(cs) && k < |cs|
    ensures ChildIndex(cs, cs[k].name) == k
  {
  }

  /** The node a path of names leads to from `a`. */
  function Find(a: Actor, segs: seq<string>): (r: Option<Actor>)
    ensures segs == [] ==> r == Some(a)
    decreases |segs|
  {
    if segs == [] then Some(a)
    else
      var i := ChildIndex(a.children, segs[0]);
      if i < 0 then None else Find(a.children[i], segs[1..])
  }

  /** `local_scene[path]`, as an option. */
  function Lookup(root: Actor, p: ScenePath.Path): Option<Actor> {
    Find(root, p.segments)
  }

  /** The changes one node can undergo. */
  datatype Edit =
    | Extend(more: seq<Actor>)
    | Insert(row: int, child: Actor)
    | Remove(name: string)
    | RenameChild(from: string, to: string)
    | SetLocal(t: Transform)
    | SetWorld(t: Transform)

  /** Where `list.insert(row, x)` puts `x` in a list of length n: a negative row counts from the end, and rows are clamped to the list. */
  function InsertPosition(n: nat, row: int): (i: nat)
    ensures i <= n
    ensures 0 <= row <= n ==> i == row
    ensures row > n ==> i == n
    ensures row < 0 ==> i == (if n + row < 0 then 0 else n + row)
  {
    if row < 0 then (if n + row < 0 then 0 else n + row) else if row > n then n else row
  }

  /** `list.insert(row, x)` */
  function PyInsert(cs: seq<Actor>, row: int, x: Actor): (r: seq<Actor>)
    ensures |r| == |cs| + 1
    ensures r == cs[..InsertPosition(|cs|, row)] + [x] + cs[InsertPosition(|cs|, row)..]
    ensures r[InsertPosition(|cs|, row)] == x
  {
    var i := InsertPosition(|cs|, row);
    cs[..i] + [x] + cs[i..]
  }

  /** `list.remove` of the first child with the name; unchanged when there is none. */
  function RemoveNamed(cs: seq<Actor>, name: string): (r: seq<Actor>)
    ensures ChildIndex(cs, name) < 0 ==> r == cs
    ensures ChildIndex(cs, name) >= 0 ==>
      |r| + 1 == |cs| && r == cs[..ChildIndex(cs, name)] + cs[ChildIndex(cs, name) + 1..]
  {
    var i := ChildIndex(cs, name);
    if i < 0 then cs else cs[..i] + cs[i + 1..]
  }

  /** One edit on one node. The node's own name and kind never change. */
  function ApplyLocal(a: Actor, e: Edit): (r: Actor)
    ensures r.name == a.name && r.kind == a.kind
  {
    match e
    case Extend(more) => a.(children := a.children + more)
    case Insert(row, c) => a.(children := PyInsert(a.children, row, c))
    case Remove(name) => a.(children := RemoveNamed(a.children, name))
    case RenameChild(from, to) =>
      var i := ChildIndex(a.children, from);
      if i < 0 then a else a.(children := a.children[i := a.children[i].(name := to)])
    case SetLocal(t) => a.(transform := t)
    case SetWorld(t) => a.(world := t)
  }

  /** The edit applied to the node at the path; a path that leads nowhere changes nothing. */
  function ApplyAt(a: Actor, segs: seq<string>, e: Edit): (r: Actor)
    ensures r.name == a.name && r.kind == a.kind
    ensures Find(a, segs).None? ==> r == a
    decreases |segs|
  {
    if segs == [] then ApplyLocal(a, e)
    else
      var i := ChildIndex(a.children, segs[0]);
      if i < 0 then a else a.(children := a.children[i := ApplyAt(a.children[i], segs[1..], e)])
  }

  /** Replacing a child by one with the same name leaves every name lookup where it was. */
  lemma {:induction false} ChildIndexUpdate(cs: seq<Actor>, i: nat, c: Actor, name: string)
    requires i < |cs| && cs[i].name == c.name
    ensures ChildIndex(cs[i := c], name) == ChildIndex(cs, name)
  {
    var ds := cs[i := c];
    assert forall k :: 0 <= k < |cs| ==> ds[k].name == cs[k].name;
    var j := ChildIndex(cs, name);
    var j' := ChildIndex(ds, name);
    if j >= 0 && j' >= 0 {
      assert j' <= j && j <= j';
    }
  }

  /** After an edit at a path, the node there is the edited node. */
  lemma {:induction false} FindApplyAt(a: Actor, segs: seq<string>, e: Edit)
    requires Find(a, segs).Some?
    ensures Find(ApplyAt(a, segs, e), segs) == Some(ApplyLocal(Find(a, segs).value, e))
    decreases |segs|
  {
    if segs != [] {
      var i := ChildIndex(a.children, segs[0]);
      var c := ApplyAt(a.children[i], segs[1..], e);
      ChildIndexUpdate(a.children, i, c, segs[0]);
      FindApplyAt(a.children[i], segs[1..], e);
    }
  }

  /** Two edits at the same path compose when they compose on the node found there. */
  lemma {:induction false} LiftSame(a: Actor, segs: seq<string>, e1: Edit, e2: Edit, e3: Edit)
    requires Find(a, segs).Some?
    requires ApplyLocal(ApplyLocal(Find(a, segs).value, e1), e2) == ApplyLocal(Find(a, segs).value, e3)
    ensures ApplyAt(ApplyAt(a, segs, e1), segs, e2) == ApplyAt(a, segs, e3)
    decreases |segs|
  {
    if segs != [] {
      var i := ChildIndex(a.children, segs[0]);
      var c := ApplyAt(a.children[i], segs[1..], e1);
      ChildIndexUpdate(a.children, i, c, segs[0]);
      LiftSame(a.children[i], segs[1..], e1, e2, e3);
      assert a.children[i := c][i := ApplyAt(c, segs[1..], e2)] == a.children[i := ApplyAt(a.children[i], segs[1..], e3)];
    }
  }

  /** An edit at a child of a path composes with an edit at the path when it does on the node found there. */
  lemma {:induction false} LiftNested(a: Actor, segs: seq<string>, x: string, e1: Edit, e2: Edit, e3: Edit)
    requires Find(a, segs).Some?
    requires ApplyAt(ApplyLocal(Find(a, segs).value, e1), [x], e2) == ApplyLocal(Find(a, segs).value, e3)
    ensures ApplyAt(ApplyAt(a, segs, e1), segs + [x], e2) == ApplyAt(a, segs, e3)
    decreases |segs|
  {
    if segs == [] {
      assert segs + [x] == [x];
    } else {
      var i := ChildIndex(a.children, segs[0]);
      assert Find(a, segs) == Find(a.children[i], segs[1..]);
      LiftNested(a.children[i], segs[1..], x, e1, e2, e3);
      RebuildNested(a, segs, x, e1, e2, e3);
    }
  }

  /** One level of `LiftNested`: what holds for the child on the path holds for the node. */
  lemma RebuildNested(a: Actor, segs: seq<string>, x: string, e1: Edit, e2: Edit, e3: Edit)
    requires segs != [] && ChildIndex(a.children, segs[0]) >= 0
    requires var ch := a.children[ChildIndex(a.children, segs[0])];
      ApplyAt(ApplyAt(ch, segs[1..], e1), segs[1..] + [x], e2) == ApplyAt(ch, segs[1..], e3)
    ensures ApplyAt(ApplyAt(a, segs, e1), segs + [x], e2) == ApplyAt(a, segs, e3)
  {
    var i := ChildIndex(a.children, segs[0]);
    var c := ApplyAt(a.children[i], segs[1..], e1);
    var a1 := a.(children := a.children[i := c]);
    ApplyAtChild(a, segs, e1);
    ChildIndexUpdate(a.children, i, c, segs[0]);
    assert (segs + [x])[0] == segs[0] && (segs + [x])[1..] == segs[1..] + [x];
    var c' := ApplyAt(c, segs[1..] + [x], e2);
    ApplyAtChild(a1, segs + [x], e2);
    ApplyAtChild(a, segs, e3);
    assert a1.children[i := c'] == a.children[i := c'];
  }

  /** An edit below a child that resolves rebuilds the node with that child edited. */
  lemma ApplyAtChild(a: Actor, segs: seq<string>, e: Edit)
    requires segs != [] && ChildIndex(a.children, segs[0]) >= 0
    ensures var i := ChildIndex(a.children, segs[0]);
      ApplyAt(a, segs, e) == a.(children := a.children[i := ApplyAt(a.children[i], segs[1..], e)])
  {
  }

  /** Extending by nothing changes nothing. */
  lemma {:induction false} NoOpAt(a: Actor, segs: seq<string>)
    ensures ApplyAt(a, segs, Extend([])) == a
    decreases |segs|
  {
    if segs == [] {
      assert a.children + [] == a.children;
    } else {
      var i := ChildIndex(a.children, segs[0]);
      if i >= 0 {
        NoOpAt(a.children[i], segs[1..]);
        assert a.children[i := a.children[i]] == a.children;
      }
    }
  }

  /** An edit at a path keeps the tree valid when it keeps the node found there valid. */
  lemma {:induction false} LiftValid(a: Actor, segs: seq<string>, e: Edit)
    requires Valid(a) && Find(a, segs).Some? && Valid(ApplyLocal(Find(a, segs).value, e))
    ensures Valid(ApplyAt(a, segs, e))
    decreases |segs|
  {
    if segs != [] {
      var i := ChildIndex(a.children, segs[0]);
      var c := ApplyAt(a.children[i], segs[1..], e);
      LiftValid(a.children[i], segs[1..], e);
      var cs := a.children[i := c];
      assert forall k :: 0 <= k < |cs| ==> cs[k].name == a.children[k].name;
      assert forall k :: 0 <= k < |cs| ==> Valid(cs[k]);
    }
  }

  /** Scene operations fail with one of these and leave the scene as it was. */
  datatype SceneError = NotFound | NotAGroup | NameCollision | CannotModifyRoot | InvalidReparent

  /** The path's parent segments and own name, for a path below the root. */
  function Init(segs: seq<string>): seq<string>
    requires segs != []
  {
    segs[..|segs| - 1]
  }

  function Last(segs: seq<string>): string
    requires segs != []
  {
    segs[|segs| - 1]
  }

  /** Why an actor with the name cannot go under the parent: it is missing, not a group, or has a child of that name. */
  function AddRefusal(root: Actor, name: string, parent: ScenePath.Path): (r: Option<SceneError>)
    ensures r.None? <==>
      (Lookup(root, parent).Some? && Lookup(root, parent).value.kind.Group?
       && ChildIndex(Lookup(root, parent).value.children, name) < 0)
  {
    match Lookup(root, parent)
    case None => Some(NotFound)
    case Some(g) =>
      if !g.kind.Group? then Some(NotAGroup)
      else if ChildIndex(g.children, name) >= 0 then Some(NameCollision)
      else None
  }

  /** `add_actor(actor, parent)`: appended as the parent group's last child. */
  function AddActor(root: Actor, actor: Actor, parent: ScenePath.Path): (r: Result<Actor, SceneError>)
    ensures r.Err? <==> AddRefusal(root, actor.name, parent).Some?
  {
    match AddRefusal(root, actor.name, parent)
    case Some(e) => Err(e)
    case None => Ok(ApplyAt(root, parent.segments, Extend([actor])))
  }

  /** Like `AddActor`, but the actor is inserted among the parent's children at `row`. */
  function AddActorAt(root: Actor, actor: Actor, parent: ScenePath.Path, row: int): (r: Result<Actor, SceneError>)
    ensures r.Err? <==> AddRefusal(root, actor.name, parent).Some?
  {
    match AddRefusal(root, actor.name, parent)
    case Some(e) => Err(e)
    case None => Ok(ApplyAt(root, parent.segments, Insert(row, actor)))
  }

  /** `delete_actor(path)`: the node and its whole subtree leave the tree; the root cannot be deleted. */
  function DeleteActor(root: Actor, p: ScenePath.Path): (r: Result<Actor, SceneError>)
    ensures r.Err? <==> p.segments == [] || Lookup(root, p).None?
  {
    if p.segments == [] then Err(CannotModifyRoot)
    else if Lookup(root, p).None? then Err(NotFound)
    else Ok(ApplyAt(root, Init(p.segments), Remove(Last(p.segments))))
  }

  /** `rename_actor(path, new_name)`: refused when the parent already has a child with the new name. */
  function RenameActor(root: Actor, p: ScenePath.Path, newName: string): (r: Result<Actor, SceneError>)
  {
    if p.segments == [] then Err(CannotModifyRoot)
    else if Lookup(root, p).None? then Err(NotFound)
    else
      FindLast(root, Init(p.segments), Last(p.segments));
      assert p.segments == Init(p.segments) + [Last(p.segments)];
      var parent := Find(root, Init(p.segments)).value;
      if ChildIndex(parent.children, newName) >= 0 then Err(NameCollision)
      else Ok(ApplyAt(root, Init(p.segments), RenameChild(Last(p.segments), newName)))
  }

  /**
   * `reparent_actor(path, new_parent, row)`: the node leaves its parent and
   * is inserted among the new parent's children at `row`. Moving a node under
   * itself or one of its descendants is refused.
   */
  function ReparentActor(root: Actor, p: ScenePath.Path, newParent: ScenePath.Path, row: int): (r: Result<Actor, SceneError>)
  {
    if p.segments == [] then Err(CannotModifyRoot)
    else if Lookup(root, p).None? || Lookup(root, newParent).None? then Err(NotFound)
    else if !Lookup(root, newParent).value.kind.Group? then Err(NotAGroup)
    else if newParent == p || ScenePath.IsDescendantOf(newParent, p) then Err(InvalidReparent)
    else if newParent.segments != Init(p.segments)
      && ChildIndex(Lookup(root, newParent).value.children, Last(p.segments)) >= 0 then Err(NameCollision)
    else
      var n := Lookup(root, p).value;
      var detached := ApplyAt(root, Init(p.segments), Remove(Last(p.segments)));
      Ok(ApplyAt(detached, newParent.segments, Insert(row, n)))
  }

  /** `set_transform_from_scene`: the local or the world transform of the node is replaced. */
  function SetTransform(root: Actor, p: ScenePath.Path, t: Transform, local: bool): (r: Result<Actor, SceneError>)
    ensures r.Err? <==> Lookup(root, p).None?
  {
    if Lookup(root, p).None? then Err(NotFound)
    else Ok(ApplyAt(root, p.segments, if local then SetLocal(t) else SetWorld(t)))
  }

  /** A freshly added actor is found at its path under the parent. */
  lemma AddThenLookup(root: Actor, actor: Actor, parent: ScenePath.Path)
    requires AddActor(root, actor, parent).Ok?
    ensures Lookup(AddActor(root, actor, parent).value, ScenePath.Child(parent, actor.name)) == Some(actor)
  {
    var g := Lookup(root, parent).value;
    var r := AddActor(root, actor, parent).value;
    FindApplyAt(root, parent.segments, Extend([actor]));
    ChildIndexAppend(g.children, actor);
    FindLast(r, parent.segments, actor.name);
  }

  /** A name the parent would accept is not yet in use: the child path does not resolve. */
  lemma FreeNameAbsent(root: Actor, name: string, parent: ScenePath.Path)
    requires AddRefusal(root, name, parent).None?
    ensures Lookup(root, ScenePath.Child(parent, name)).None?
  {
    FindLast(root, parent.segments, name);
  }

  /** A path resolves only if its parent does, and then to a child of the parent's node. */
  lemma {:induction false} FindLast(a: Actor, segs: seq<string>, x: string)
    ensures Find(a, segs + [x]).Some? ==> Find(a, segs).Some?
    ensures Find(a, segs).Some? ==> Find(a, segs + [x]) == Find(Find(a, segs).value, [x])
    decreases |segs|
  {
    if segs == [] {
      assert segs + [x] == [x];
    } else {
      assert (segs + [x])[0] == segs[0] && (segs + [x])[1..] == segs[1..] + [x];
      var i := ChildIndex(a.children, segs[0]);
      if i >= 0 {
        FindLast(a.children[i], segs[1..], x);
      }
    }
  }

  /** The parent of a node that resolves resolves too, and holds the node under its name. */
  lemma ParentFound(root: Actor, p: ScenePath.Path)
    requires p.segments != [] && Lookup(root, p).Some?
    ensures Find(root, Init(p.segments)).Some?
    ensures
      var cs := Find(root, Init(p.segments)).value.children;
      0 <= ChildIndex(cs, Last(p.segments)) && cs[ChildIndex(cs, Last(p.segments))] == Lookup(root, p).value
  {
    assert p.segments == Init(p.segments) + [Last(p.segments)];
    FindLast(root, Init(p.segments), Last(p.segments));
  }

  /** A name absent from the children is found at the end once appended. */
  lemma {:induction false} ChildIndexAppend(cs: seq<Actor>, c: Actor)
    requires ChildIndex(cs, c.name) < 0
    ensures ChildIndex(cs + [c], c.name) == |cs|
  {
    if cs != [] {
      assert (cs + [c])[0] == cs[0] && (cs + [c])[1..] == cs[1..] + [c];
      assert cs[0].name != c.name;
      assert forall k :: 0 <= k < |cs[1..]| ==> cs[1..][k] == cs[k + 1];
      ChildIndexAppend(cs[1..], c);
    }
  }

  /** Undoing a creation: deleting what was just added gives back the scene. */
  lemma AddThenDelete(root: Actor, actor: Actor, parent: ScenePath.Path)
    requires AddActor(root, actor, parent).Ok?
    ensures DeleteActor(AddActor(root, actor, parent).value, ScenePath.Child(parent, actor.name)) == Ok(root)
  {
    var r := AddActor(root, actor, parent).value;
    var c := ScenePath.Child(parent, actor.name);
    AddThenLookup(root, actor, parent);
    assert Init(c.segments) == parent.segments && Last(c.segments) == actor.name;
    assert DeleteActor(r, c) == Ok(ApplyAt(r, parent.segments, Remove(actor.name)));
    AppendThenRemove(Lookup(root, parent).value, actor);
    LiftSame(root, parent.segments, Extend([actor]), Remove(actor.name), Extend([]));
    NoOpAt(root, parent.segments);
  }

  /** On one node: appending a child under a free name and removing that name is no change. */
  lemma AppendThenRemove(g: Actor, actor: Actor)
    requires ChildIndex(g.children, actor.name) < 0
    ensures ApplyLocal(ApplyLocal(g, Extend([actor])), Remove(actor.name)) == ApplyLocal(g, Extend([]))
  {
    ChildIndexAppend(g.children, actor);
    assert (g.children + [actor])[..|g.children|] == g.children;
    assert g.children + [] == g.children;
  }

  /** On one node with distinct child names, renaming a child and renaming it back is no change. */
  lemma RenameChildBack(g: Actor, was: string, newName: string)
    requires DistinctNames(g.children)
    requires ChildIndex(g.children, was) >= 0 && ChildIndex(g.children, newName) < 0
    ensures
      var g' := ApplyLocal(g, RenameChild(was, newName));
      && ChildIndex(g'.children, newName) >= 0
      && ChildIndex(g'.children, was) < 0
      && ApplyLocal(g', RenameChild(newName, was)) == g
  {
    var i := ChildIndex(g.children, was);
    var g' := ApplyLocal(g, RenameChild(was, newName));
    assert forall k :: 0 <= k < |g.children| && k != i ==> g'.children[k] == g.children[k];
    assert ChildIndex(g'.children, newName) == i;
    assert ChildIndex(g'.children, was) < 0 by {
      forall k | 0 <= k < |g'.children|
        ensures g'.children[k].name != was
      {
        if k != i {
          assert g.children[i].name != g.children[k].name;
        }
      }
    }
    assert g'.children[i := g'.children[i].(name := was)] == g.children;
  }

  /** Undoing a rename: in a valid scene, renaming back under the new path gives back the scene. */
  lemma RenameThenRenameBack(root: Actor, p: ScenePath.Path, newName: string)
    requires Valid(root) && RenameActor(root, p, newName).Ok?
    ensures p.segments != []
    ensures RenameActor(RenameActor(root, p, newName).value, ScenePath.Path(Init(p.segments) + [newName]), Last(p.segments))
      == Ok(root)
  {
    var ps := Init(p.segments);
    var was := Last(p.segments);
    var r := RenameActor(root, p, newName).value;
    var q := ScenePath.Path(ps + [newName]);
    assert Init(q.segments) == ps && Last(q.segments) == newName;
    var g := RenamedParent(root, p, newName);
    var g' := ApplyLocal(g, RenameChild(was, newName));
    assert RenameActor(r, q, was) == Ok(ApplyAt(r, ps, RenameChild(newName, was)));
    assert ApplyLocal(g', RenameChild(newName, was)) == ApplyLocal(g, Extend([])) by {
      assert g.children + [] == g.children;
    }
    LiftSame(root, ps, RenameChild(was, newName), RenameChild(newName, was), Extend([]));
    NoOpAt(root, ps);
  }

  /** The parent node of a successful rename, and where the renamed child is found afterwards. */
  lemma RenamedParent(root: Actor, p: ScenePath.Path, newName: string) returns (g: Actor)
    requires Valid(root) && RenameActor(root, p, newName).Ok?
    ensures p.segments != [] && Find(root, Init(p.segments)) == Some(g)
    ensures
      var r := RenameActor(root, p, newName).value;
      var g' := ApplyLocal(g, RenameChild(Last(p.segments), newName));
      && r == ApplyAt(root, Init(p.segments), RenameChild(Last(p.segments), newName))
      && Find(r, Init(p.segments)) == Some(g')
      && Find(r, Init(p.segments) + [newName]).Some?
      && ChildIndex(g'.children, Last(p.segments)) < 0
      && ApplyLocal(g', RenameChild(newName, Last(p.segments))) == g
  {
    var ps := Init(p.segments);
    var was := Last(p.segments);
    var r := RenameActor(root, p, newName).value;
    assert p.segments == ps + [was];
    FindLast(root, ps, was);
    g := Find(root, ps).value;
    ValidFind(root, ps);
    RenameChildBack(g, was, newName);
    FindApplyAt(root, ps, RenameChild(was, newName));
    FindLast(r, ps, newName);
  }

  /** Undoing a transform change: putting the old transform back gives back the scene. */
  lemma SetTransformBack(root: Actor, p: ScenePath.Path, t: Transform, local: bool)
    requires Lookup(root, p).Some?
    ensures
      var n := Lookup(root, p).value;
      SetTransform(SetTransform(root, p, t, local).value, p, if local then n.transform else n.world, local) == Ok(root)
  {
    var n := Lookup(root, p).value;
    var e1 := if local then SetLocal(t) else SetWorld(t);
    var e2 := if local then SetLocal(n.transform) else SetWorld(n.world);
    FindApplyAt(root, p.segments, e1);
    assert ApplyLocal(ApplyLocal(n, e1), e2) == ApplyLocal(n, Extend([])) by {
      assert n.children + [] == n.children;
    }
    LiftSame(root, p.segments, e1, e2, Extend([]));
    NoOpAt(root, p.segments);
  }

  /** In a valid scene a deleted path no longer resolves. */
  lemma DeleteThenLookup(root: Actor, p: ScenePath.Path)
    requires Valid(root) && DeleteActor(root, p).Ok?
    ensures Lookup(DeleteActor(root, p).value, p).None?
  {
    var ps := Init(p.segments);
    var x := Last(p.segments);
    assert p.segments == ps + [x];
    FindLast(root, ps, x);
    ValidFind(root, ps);
    var g := Find(root, ps).value;
    FindApplyAt(root, ps, Remove(x));
    RemovedNameAbsent(g.children, x);
    FindLast(DeleteActor(root, p).value, ps, x);
  }

  /** With distinct names, removing the child with a name leaves no child with that name. */
  lemma RemovedNameAbsent(cs: seq<Actor>, x: string)
    requires DistinctNames(cs)
    ensures ChildIndex(RemoveNamed(cs, x), x) < 0
  {
    var i := ChildIndex(cs, x);
    if i >= 0 {
      var r := RemoveNamed(cs, x);
      forall k | 0 <= k < |r| ensures r[k].name != x {
        if k < i {
          assert r[k] == cs[k];
        } else {
          assert r[k] == cs[k + 1];
        }
      }
    }
  }

  /** Every node of a valid tree is valid. */
  lemma {:induction false} ValidFind(a: Actor, segs: seq<string>)
    requires Valid(a) && Find(a, segs).Some?
    ensures Valid(Find(a, segs).value)
    decreases |segs|
  {
    if segs != [] {
      ValidFind(a.children[ChildIndex(a.children, segs[0])], segs[1..]);
    }
  }

  /** Adding a valid actor under a group without a child of that name keeps the scene valid. */
  lemma AddKeepsValid(root: Actor, actor: Actor, parent: ScenePath.Path)
    requires Valid(root) && Valid(actor) && AddActor(root, actor, parent).Ok?
    ensures Valid(AddActor(root, actor, parent).value)
  {
    var g := Lookup(root, parent).value;
    ValidFind(root, parent.segments);
    var cs := g.children + [actor];
    assert forall k :: 0 <= k < |g.children| ==> cs[k] == g.children[k];
    assert DistinctNames(cs);
    LiftValid(root, parent.segments, Extend([actor]));
  }

  /**
   * The group re-created for a deleted group: a new empty group with the
   * name and transform of the old one. Its world transform follows from that
   * local transform and the restored parent, so it is the old one too.
   */
  function Shell(t: Actor): (g: Actor)
    ensures g.name == t.name && g.kind == Group && g.children == []
  {
    Actor(t.name, Group, t.transform, t.world, [])
  }

  /**
   * Bringing back a deleted actor, as the undo of a deletion does: a group is
   * re-created empty and appended to the parent, then its children are
   * restored into it one by one; any other actor is appended as a copy.
   */
  function Restore(root: Actor, t: Actor, parent: ScenePath.Path): Result<Actor, SceneError>
    decreases t, 1
  {
    if t.kind.Group? then
      match AddActor(root, Shell(t), parent)
      case Err(e) => Err(e)
      case Ok(r) => RestoreAll(r, t.children, ScenePath.Child(parent, t.name))
    else AddActor(root, t, parent)
  }

  /** The actors restored under the parent in order; the first failure stops the rest. */
  function RestoreAll(root: Actor, ts: seq<Actor>, parent: ScenePath.Path): Result<Actor, SceneError>
    decreases ts, 0
  {
    if ts == [] then Ok(root)
    else
      match Restore(root, ts[0], parent)
      case Err(e) => Err(e)
      case Ok(r) => RestoreAll(r, ts[1..], parent)
  }

  /** The corrected restore: the top actor goes back at `row` among its siblings; its subtree is rebuilt as before. */
  function RestoreAt(root: Actor, t: Actor, parent: ScenePath.Path, row: int): Result<Actor, SceneError> {
    if t.kind.Group? then
      match AddActorAt(root, Shell(t), parent, row)
      case Err(e) => Err(e)
      case Ok(r) => RestoreAll(r, t.children, ScenePath.Child(parent, t.name))
    else AddActorAt(root, t, parent, row)
  }

  /** None of the names of `ts` is the name of a child of `g`. */
  predicate FreshNames(g: Actor, ts: seq<Actor>) {
    forall k :: 0 <= k < |ts| ==> ChildIndex(g.children, ts[k].name) < 0
  }

  /** Extending twice at a path is extending once by both. */
  lemma ExtendTwice(a: Actor, segs: seq<string>, xs: seq<Actor>, ys: seq<Actor>)
    requires Find(a, segs).Some?
    ensures ApplyAt(ApplyAt(a, segs, Extend(xs)), segs, Extend(ys)) == ApplyAt(a, segs, Extend(xs + ys))
  {
    var n := Find(a, segs).value;
    assert n.children + xs + ys == n.children + (xs + ys);
    LiftSame(a, segs, Extend(xs), Extend(ys), Extend(xs + ys));
  }

  /** Appending a child whose name is new makes the child findable under its name. */
  lemma ChildIndexInserted(cs: seq<Actor>, row: int, c: Actor)
    requires ChildIndex(cs, c.name) < 0
    ensures ChildIndex(PyInsert(cs, row, c), c.name) == InsertPosition(|cs|, row)
  {
    var i := InsertPosition(|cs|, row);
    var r := PyInsert(cs, row, c);
    forall k | 0 <= k < i ensures r[k].name != c.name {
      assert r[k] == cs[k];
    }
    assert r[i] == c;
  }

  /**
   * Restoring a valid subtree under a group that has no child of its name
   * succeeds and appends exactly that subtree.
   */
  lemma {:induction false} RestoreAppends(root: Actor, t: Actor, parent: ScenePath.Path)
    requires Valid(t) && AddRefusal(root, t.name, parent).None?
    ensures Restore(root, t, parent) == Ok(ApplyAt(root, parent.segments, Extend([t])))
    decreases t, 1
  {
    if t.kind.Group? {
      var ps := parent.segments;
      var g := Find(root, ps).value;
      var r := ApplyAt(root, ps, Extend([Shell(t)]));
      AddThenLookup(root, Shell(t), parent);
      assert Find(r, ps + [t.name]) == Some(Shell(t));
      RestoreAllExtends(r, t.children, ScenePath.Child(parent, t.name));
      ChildIndexAppend(g.children, Shell(t));
      assert (g.children + [Shell(t)])[|g.children| := t] == g.children + [t];
      assert Shell(t).children + t.children == t.children;
      LiftNested(root, ps, t.name, Extend([Shell(t)]), Extend(t.children), Extend([t]));
    }
  }

  /** Restoring a sequence of valid subtrees with distinct new names appends them in order. */
  lemma {:induction false} RestoreAllExtends(root: Actor, ts: seq<Actor>, parent: ScenePath.Path)
    requires Lookup(root, parent).Some? && Lookup(root, parent).value.kind.Group?
    requires FreshNames(Lookup(root, parent).value, ts) && DistinctNames(ts)
    requires forall k :: 0 <= k < |ts| ==> Valid(ts[k])
    ensures RestoreAll(root, ts, parent) == Ok(ApplyAt(root, parent.segments, Extend(ts)))
    decreases ts, 0
  {
    var ps := parent.segments;
    if ts == [] {
      NoOpAt(root, ps);
    } else {
      var g := Find(root, ps).value;
      assert AddRefusal(root, ts[0].name, parent).None? by {
        assert ChildIndex(g.children, ts[0].name) < 0;
      }
      RestoreAppends(root, ts[0], parent);
      var r := ApplyAt(root, ps, Extend([ts[0]]));
      assert RestoreAll(root, ts, parent) == RestoreAll(r, ts[1..], parent);
      FindApplyAt(root, ps, Extend([ts[0]]));
      assert Lookup(r, parent) == Some(ApplyLocal(g, Extend([ts[0]])));
      FreshAfterExtend(g, ts);
      forall k | 0 <= k < |ts[1..]| ensures Valid(ts[1..][k]) {
        assert ts[1..][k] == ts[k + 1];
      }
      RestoreAllExtends(r, ts[1..], parent);
      ExtendTwice(root, ps, [ts[0]], ts[1..]);
      assert [ts[0]] + ts[1..] == ts;
    }
  }

  /** Once the first of distinct fresh names is taken, the rest are still fresh. */
  lemma FreshAfterExtend(g: Actor, ts: seq<Actor>)
    requires ts != [] && FreshNames(g, ts) && DistinctNames(ts)
    ensures FreshNames(ApplyLocal(g, Extend([ts[0]])), ts[1..]) && DistinctNames(ts[1..])
  {
    var g' := ApplyLocal(g, Extend([ts[0]]));
    forall k | 0 <= k < |ts[1..]|
      ensures ChildIndex(g'.children, ts[1..][k].name) < 0
    {
      assert ts[1..][k] == ts[k + 1];
      assert ts[0].name != ts[k + 1].name;
      assert forall m :: 0 <= m < |g.children| ==> g'.children[m] == g.children[m];
    }
  }

  /** The corrected restore succeeds and puts the subtree back at `row`. */
  lemma RestoreAtInserts(root: Actor, t: Actor, parent: ScenePath.Path, row: int)
    requires Valid(t) && AddRefusal(root, t.name, parent).None?
    ensures RestoreAt(root, t, parent, row) == Ok(ApplyAt(root, parent.segments, Insert(row, t)))
  {
    if t.kind.Group? {
      var ps := parent.segments;
      var g := Find(root, ps).value;
      var r := ApplyAt(root, ps, Insert(row, Shell(t)));
      assert RestoreAt(root, t, parent, row) == RestoreAll(r, t.children, ScenePath.Child(parent, t.name));
      FindApplyAt(root, ps, Insert(row, Shell(t)));
      InsertedShell(g, row, t);
      FindLast(r, ps, t.name);
      RestoreAllExtends(r, t.children, ScenePath.Child(parent, t.name));
      LiftNested(root, ps, t.name, Insert(row, Shell(t)), Extend(t.children), Insert(row, t));
    }
  }

  /** On one node: a shell inserted at `row` and then filled with the children is the subtree inserted at `row`. */
  lemma InsertedShell(g: Actor, row: int, t: Actor)
    requires ChildIndex(g.children, t.name) < 0 && t.kind.Group?
    ensures Find(ApplyLocal(g, Insert(row, Shell(t))), [t.name]) == Some(Shell(t))
    ensures ApplyAt(ApplyLocal(g, Insert(row, Shell(t))), [t.name], Extend(t.children)) == ApplyLocal(g, Insert(row, t))
  {
    ChildIndexInserted(g.children, row, Shell(t));
    var i := InsertPosition(|g.children|, row);
    assert PyInsert(g.children, row, Shell(t))[i := t] == PyInsert(g.children, row, t);
    assert Shell(t).children + t.children == t.children;
  }

  /** The parent of a deleted node, with what the deletion did to it. */
  lemma DeletedParent(root: Actor, p: ScenePath.Path) returns (g: Actor)
    requires Valid(root) && DeleteActor(root, p).Ok?
    ensures p.segments != [] && Find(root, Init(p.segments)) == Some(g)
    ensures
      var x := Last(p.segments);
      var n := Lookup(root, p).value;
      var d := DeleteActor(root, p).value;
      && g.kind.Group? && Valid(g) && Valid(n)
      && 0 <= ChildIndex(g.children, x) && g.children[ChildIndex(g.children, x)] == n
      && d == ApplyAt(root, Init(p.segments), Remove(x))
      && Find(d, Init(p.segments)) == Some(ApplyLocal(g, Remove(x)))
      && AddRefusal(d, x, ScenePath.Path(Init(p.segments))).None?
  {
    var ps := Init(p.segments);
    var x := Last(p.segments);
    assert p.segments == ps + [x];
    FindLast(root, ps, x);
    g := Find(root, ps).value;
    ValidFind(root, ps);
    ValidFind(root, p.segments);
    var i := ChildIndex(g.children, x);
    FindApplyAt(root, ps, Remove(x));
    var g' := ApplyLocal(g, Remove(x));
    assert ChildIndex(g'.children, x) < 0 by {
      forall k | 0 <= k < |g'.children|
        ensures g'.children[k].name != x
      {
        if k >= i {
          assert g'.children[k] == g.children[k + 1];
        }
      }
    }
  }

  /**
   * Undo of a deletion as the window performs it: the restored actor comes
   * back as the LAST child of its old parent, wherever it was before.
   */
  lemma DeleteThenRestore(root: Actor, p: ScenePath.Path)
    requires Valid(root) && DeleteActor(root, p).Ok?
    ensures p.segments != [] && Find(root, Init(p.segments)).Some?
    ensures
      var n := Lookup(root, p).value;
      var g := Find(root, Init(p.segments)).value;
      var r := Restore(DeleteActor(root, p).value, n, ScenePath.Path(Init(p.segments)));
      && r.Ok?
      && Find(r.value, Init(p.segments)) == Some(g.(children := RemoveNamed(g.children, n.name) + [n]))
  {
    var ps := Init(p.segments);
    var x := Last(p.segments);
    var n := Lookup(root, p).value;
    var g := DeletedParent(root, p);
    var d := DeleteActor(root, p).value;
    RestoreAppends(d, n, ScenePath.Path(ps));
    FindApplyAt(d, ps, Extend([n]));
  }

  /** As written, undoing a deletion is adding the deleted actor back to its old parent, appended. */
  lemma DeleteThenRestoreIsAdd(root: Actor, p: ScenePath.Path)
    requires Valid(root) && DeleteActor(root, p).Ok?
    ensures p.segments != [] && Lookup(root, p).Some?
    ensures
      var n := Lookup(root, p).value;
      var pp := ScenePath.Path(Init(p.segments));
      var d := DeleteActor(root, p).value;
      && p == ScenePath.Child(pp, n.name)
      && AddActor(d, n, pp).Ok?
      && Restore(d, n, pp) == AddActor(d, n, pp)
  {
    var ps := Init(p.segments);
    var x := Last(p.segments);
    var n := Lookup(root, p).value;
    var g := DeletedParent(root, p);
    assert n.name == x;
    assert p.segments == ps + [x];
    RestoreAppends(DeleteActor(root, p).value, n, ScenePath.Path(ps));
  }

  /** The corrected undo of a deletion: restoring at the recorded row gives back the scene. */
  lemma DeleteThenRestoreAt(root: Actor, p: ScenePath.Path)
    requires Valid(root) && DeleteActor(root, p).Ok?
    ensures p.segments != [] && Find(root, Init(p.segments)).Some?
    ensures
      var n := Lookup(root, p).value;
      var g := Find(root, Init(p.segments)).value;
      RestoreAt(DeleteActor(root, p).value, n, ScenePath.Path(Init(p.segments)), ChildIndex(g.children, n.name))
        == Ok(root)
  {
    var ps := Init(p.segments);
    var x := Last(p.segments);
    var n := Lookup(root, p).value;
    var g := DeletedParent(root, p);
    var d := DeleteActor(root, p).value;
    var i := ChildIndex(g.children, x);
    RestoreAtInserts(d, n, ScenePath.Path(ps), i);
    Reinsert(g, x);
    LiftSame(root, ps, Remove(x), Insert(i, n), Extend([]));
    NoOpAt(root, ps);
  }

  /** On one node: taking out a child and inserting it back at its old row is no change. */
  lemma Reinsert(g: Actor, x: string)
    requires ChildIndex(g.children, x) >= 0
    ensures
      var i := ChildIndex(g.children, x);
      ApplyLocal(ApplyLocal(g, Remove(x)), Insert(i, g.children[i])) == ApplyLocal(g, Extend([]))
  {
    var i := ChildIndex(g.children, x);
    var cs := RemoveNamed(g.children, x);
    assert InsertPosition(|cs|, i) == i;
    assert cs[..i] == g.children[..i] && cs[i..] == g.children[i + 1..];
    assert g.children[..i] + [g.children[i]] + g.children[i + 1..] == g.children;
    assert g.children + [] == g.children;
  }

  /** Two child lists that carry the same names in the same order. */
  predicate SameNames(cs: seq<Actor>, ds: seq<Actor>) {
    |cs| == |ds| && forall k :: 0 <= k < |cs| ==> cs[k].name == ds[k].name
  }

  /** Name lookup sees only the names. */
  lemma ChildIndexSameNames(cs: seq<Actor>, ds: seq<Actor>, name: string)
    requires SameNames(cs, ds)
    ensures ChildIndex(cs, name) == ChildIndex(ds, name)
  {
    var i := ChildIndex(cs, name);
    if i >= 0 {
      assert ds[i].name == name;
    }
  }

  /** The first child with a name is at `t` when it has the name and no earlier child does. */
  lemma ChildIndexAt(cs: seq<Actor>, name: string, t: nat)
    requires t < |cs| && cs[t].name == name
    requires forall k :: 0 <= k < t ==> cs[k].name != name
    ensures ChildIndex(cs, name) == t
  {
  }

  /** `list.remove` of the child named `x` keeps the first child with any other name, one row earlier when it came after. */
  /** Removing the entry at `i` moves a later entry `j` one place down, and earlier names stay before it. */
  lemma RemovedShift(cs: seq<Actor>, i: nat, j: nat, h: string)
    requires i < |cs| && j < |cs| && i != j && cs[j].name == h
    requires forall k :: 0 <= k < j ==> cs[k].name != h
    ensures var r := cs[..i] + cs[i + 1..]; var t := if j < i then j else j - 1;
      t < |r| && r[t] == cs[j] && forall k :: 0 <= k < t ==> r[k].name != h
  {
    var r := cs[..i] + cs[i + 1..];
    var t := if j < i then j else j - 1;
    forall k | 0 <= k < t
      ensures r[k].name != h
    {
      if k < i {
        assert r[k] == cs[k];
      } else {
        assert r[k] == cs[k + 1];
      }
    }
    assert r[t] == cs[j];
  }

  lemma RemoveNamedKeeps(cs: seq<Actor>, x: string, h: string)
    requires h != x && ChildIndex(cs, h) >= 0
    ensures var r := RemoveNamed(cs, x);
      ChildIndex(r, h) >= 0 && r[ChildIndex(r, h)] == cs[ChildIndex(cs, h)]
  {
    var i := ChildIndex(cs, x);
    var j := ChildIndex(cs, h);
    if i >= 0 {
      var r := RemoveNamed(cs, x);
      assert r == cs[..i] + cs[i + 1..];
      RemovedShift(cs, i, j, h);
      ChildIndexAt(r, h, if j < i then j else j - 1);
    }
  }


  /** `q` leads to or through the child `x` of the node at `ps`. */
  predicate Through(q: seq<string>, ps: seq<string>, x: string)
    decreases |ps|
  {
    q != [] && if ps == [] then q[0] == x else q[0] == ps[0] && Through(q[1..], ps[1..], x)
  }

  /** A path through the child `ps + [x]` starts with those segments. */
  lemma {:induction false} ThroughPrefix(q: seq<string>, ps: seq<string>, x: string)
    ensures Through(q, ps, x) ==> |ps| < |q| && q[..|ps| + 1] == ps + [x]
    decreases |ps|
  {
    if ps != [] && Through(q, ps, x) {
      ThroughPrefix(q[1..], ps[1..], x);
      assert q[..|ps| + 1] == [q[0]] + q[1..][..|ps|];
      assert ps + [x] == [ps[0]] + (ps[1..] + [x]);
    }
  }

  /** A new parent that is neither the moved node nor below it does not lead through the moved node. */
  lemma NotThroughMoved(p: ScenePath.Path, newParent: ScenePath.Path)
    requires p.segments != [] && newParent != p && !ScenePath.IsDescendantOf(newParent, p)
    ensures !Through(newParent.segments, Init(p.segments), Last(p.segments))
  {
    var q := newParent.segments;
    var ps := Init(p.segments);
    assert p.segments == ps + [Last(p.segments)];
    ThroughPrefix(q, ps, Last(p.segments));
    if |q| == |ps| + 1 {
      assert q[..|ps| + 1] == q;
    }
  }

  /**
   * What removing the child `x` of the node at `ps` leaves at a path `q`
   * that does not lead to or through that child: a node of the same kind,
   * which at `ps` itself is the node without `x` and elsewhere has children
   * with the same names as before.
   */
  lemma {:induction false} FindDetached(a: Actor, ps: seq<string>, x: string, q: seq<string>)
    requires Find(a, q).Some? && !Through(q, ps, x)
    ensures Find(ApplyAt(a, ps, Remove(x)), q).Some?
    ensures
      var m := Find(ApplyAt(a, ps, Remove(x)), q).value;
      var o := Find(a, q).value;
      && m.kind == o.kind
      && (q == ps ==> m == ApplyLocal(o, Remove(x)))
      && (q != ps ==> SameNames(m.children, o.children))
    decreases |q|
  {
    if q == [] {
      DetachedHere(a, ps, x);
    } else if ps == [] {
      DetachedChild(a, x, q);
    } else if ChildIndex(a.children, ps[0]) < 0 {
    } else if q[0] != ps[0] {
      DetachedBeside(a, ps, x, q);
    } else {
      var i := ChildIndex(a.children, ps[0]);
      var c := ApplyAt(a.children[i], ps[1..], Remove(x));
      ApplyAtChild(a, ps, Remove(x));
      ChildIndexUpdate(a.children, i, c, q[0]);
      assert q == ps <==> q[1..] == ps[1..];
      FindDetached(a.children[i], ps[1..], x, q[1..]);
    }
  }

  /** The node itself after a removal at `ps`: the node without `x` when `ps` is empty, else the same names. */
  lemma DetachedHere(a: Actor, ps: seq<string>, x: string)
    ensures var d := ApplyAt(a, ps, Remove(x));
      && d.kind == a.kind
      && (ps == [] ==> d == ApplyLocal(a, Remove(x)))
      && (ps != [] ==> SameNames(d.children, a.children))
  {
    if ps != [] && ChildIndex(a.children, ps[0]) >= 0 {
      ApplyAtChild(a, ps, Remove(x));
    }
  }

  /** Below a node whose child `x` was removed, a path through another child leads where it did. */
  lemma DetachedChild(a: Actor, x: string, q: seq<string>)
    requires q != [] && q[0] != x && Find(a, q).Some?
    ensures Find(ApplyLocal(a, Remove(x)), q) == Find(a, q)
  {
    RemoveNamedKeeps(a.children, x, q[0]);
  }

  /** A path that leaves a node through another child than the one edited leads where it did. */
  lemma DetachedBeside(a: Actor, ps: seq<string>, x: string, q: seq<string>)
    requires ps != [] && q != [] && q[0] != ps[0] && ChildIndex(a.children, ps[0]) >= 0 && Find(a, q).Some?
    ensures Find(ApplyAt(a, ps, Remove(x)), q) == Find(a, q)
  {
    var i := ChildIndex(a.children, ps[0]);
    var c := ApplyAt(a.children[i], ps[1..], Remove(x));
    ApplyAtChild(a, ps, Remove(x));
    ChildIndexUpdate(a.children, i, c, q[0]);
  }

  /**
   * The steps of a reparent that is not refused: the detached scene `d`,
   * the new parent `m` found in it, a group without a child of the moved
   * name, and the result as the insertion of the moved node `n` into `m`.
   */
  lemma ReparentTarget(root: Actor, p: ScenePath.Path, newParent: ScenePath.Path, row: int) returns (d: Actor, m: Actor, n: Actor)
    requires Valid(root) && ReparentActor(root, p, newParent, row).Ok?
    ensures p.segments != [] && Lookup(root, p) == Some(n) && n.name == Last(p.segments) && Valid(n)
    ensures d == ApplyAt(root, Init(p.segments), Remove(Last(p.segments))) && Valid(d)
    ensures Find(d, newParent.segments) == Some(m) && m.kind.Group? && ChildIndex(m.children, n.name) < 0
    ensures ReparentActor(root, p, newParent, row) == Ok(ApplyAt(d, newParent.segments, Insert(row, n)))
  {
    var ps := Init(p.segments);
    var x := Last(p.segments);
    var q := newParent.segments;
    assert p.segments == ps + [x];
    n := Lookup(root, p).value;
    ParentFound(root, p);
    var g := Find(root, ps).value;
    ValidFind(root, ps);
    ValidFind(root, p.segments);
    d := ApplyAt(root, ps, Remove(x));
    assert Valid(d) by {
      RemovedValid(g, x);
      LiftValid(root, ps, Remove(x));
    }
    NotThroughMoved(p, newParent);
    FindDetached(root, ps, x, q);
    m := Find(d, q).value;
    if q == ps {
      RemovedNameAbsent(g.children, x);
    } else {
      ChildIndexSameNames(m.children, Find(root, q).value.children, x);
    }
  }

  /** On one node: without a child of that name, `list.remove` keeps a valid node valid. */
  lemma RemovedValid(g: Actor, x: string)
    requires Valid(g)
    ensures Valid(ApplyLocal(g, Remove(x)))
  {
    var i := ChildIndex(g.children, x);
    if i >= 0 {
      var r := RemoveNamed(g.children, x);
      assert forall k :: 0 <= k < |r| ==> r[k] == (if k < i then g.children[k] else g.children[k + 1]);
    }
  }

  /** On one group: inserting a valid node under a free name keeps it valid. */
  lemma InsertedValid(m: Actor, row: int, n: Actor)
    requires Valid(m) && Valid(n) && m.kind.Group? && ChildIndex(m.children, n.name) < 0
    ensures Valid(ApplyLocal(m, Insert(row, n)))
  {
    var cs := m.children;
    var i := InsertPosition(|cs|, row);
    var r := PyInsert(cs, row, n);
    assert forall k :: 0 <= k < i ==> r[k] == cs[k];
    assert forall k :: i < k < |r| ==> r[k] == cs[k - 1];
    forall k | 0 <= k < |r|
      ensures Valid(r[k])
    {
      if k > i {
        assert r[k] == cs[k - 1];
      }
    }
    forall u, v | 0 <= u < v < |r|
      ensures r[u].name != r[v].name
    {
      if v < i {
        assert r[u] == cs[u] && r[v] == cs[v];
      } else if u > i {
        assert r[u] == cs[u - 1] && r[v] == cs[v - 1];
      } else if u < i && v > i {
        assert r[u] == cs[u] && r[v] == cs[v - 1];
      }
    }
  }

  /** After a reparent, the moved actor is found under its own name below the new parent. */
  lemma ReparentThenLookup(root: Actor, p: ScenePath.Path, newParent: ScenePath.Path, row: int)
    requires Valid(root) && ReparentActor(root, p, newParent, row).Ok?
    ensures p.segments != [] && Lookup(root, p).Some?
    ensures Lookup(ReparentActor(root, p, newParent, row).value, ScenePath.Child(newParent, Last(p.segments)))
      == Lookup(root, p)
  {
    var d, m, n := ReparentTarget(root, p, newParent, row);
    var q := newParent.segments;
    var r := ApplyAt(d, q, Insert(row, n));
    FindApplyAt(d, q, Insert(row, n));
    ChildIndexInserted(m.children, row, n);
    FindLast(r, q, n.name);
  }

  /** A reparent keeps sibling names distinct and assets childless everywhere. */
  lemma ReparentKeepsValid(root: Actor, p: ScenePath.Path, newParent: ScenePath.Path, row: int)
    requires Valid(root) && ReparentActor(root, p, newParent, row).Ok?
    ensures Valid(ReparentActor(root, p, newParent, row).value)
  {
    var d, m, n := ReparentTarget(root, p, newParent, row);
    ValidFind(d, newParent.segments);
    InsertedValid(m, row, n);
    LiftValid(d, newParent.segments, Insert(row, n));
  }

  /** Two assets under the root, `a` before `b`. */
  function AAndB(): Actor {
    NewGroup("root").(children := [NewGroup("a").(kind := Asset("cube")), NewGroup("b").(kind := Asset("cube"))])
  }

  /** Deleting `a` and undoing the deletion leaves `b` first: the order is not restored. */
  lemma RestoreReordersSiblings()
    ensures DeleteActor(AAndB(), ScenePath.Path(["a"])).Ok?
    ensures
      var r := Restore(DeleteActor(AAndB(), ScenePath.Path(["a"])).value, AAndB().children[0], ScenePath.Root);
      && r.Ok? && r.value != AAndB()
      && r.value.children == [AAndB().children[1], AAndB().children[0]]
  {
    var s := AAndB();
    var a := s.children[0];
    var b := s.children[1];
    assert ChildIndex(s.children, "a") == 0;
    var d := DeleteActor(s, ScenePath.Path(["a"])).value;
    assert d.children == [b];
    assert ChildIndex(d.children, "a") < 0;
    assert Lookup(d, ScenePath.Root) == Some(d);
    assert AddRefusal(d, "a", ScenePath.Root).None?;
    assert Restore(d, a, ScenePath.Root) == Ok(ApplyLocal(d, Extend([a])));
    assert [b] + [a] == [b, a];
    assert [b, a] != s.children by {
      assert [b, a][0].name == "b" != "a" == s.children[0].name;
    }
  }
}
