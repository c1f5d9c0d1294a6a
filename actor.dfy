/**
 * Scene actors with a parent back-pointer, and groups that own an ordered
 * list of children. Only the contract the actor tests pin down is modelled:
 * `add_child`, construction with a parent, the `parent` setter,
 * `remove_child` and the copying `children` accessor.
 */
module SceneActor {
  import opened Wrappers
  import opened Seqs

  datatype RemoveError = NotAChild

  class Actor {
    const name: string
    /** `GroupActor` rather than `BaseActor`; only groups hold children. */
    const isGroup: bool
    var parent: Actor?
    var children: seq<Actor>

    /** `GroupActor(name)`: a detached group with no children. */
    constructor Group(name: string, ghost world: set<Actor>)
      ensures this.name == name && isGroup
      ensures parent == null && children == []
      ensures old(Consistent(world)) ==> Consistent(world + {this})
    {
      this.name := name;
      isGroup := true;
      parent := null;
      children := [];
      new;
      if Consistent(world) {
        var kids := Kids(world);
        var parents := Parents(world);
        AddDetached(world, kids, parents, this);
        ConsistentFrom(world + {this}, kids[this := []], parents[this := null]);
      }
    }

    /** `BaseActor(name, parent)`: attached to the end of `parent`'s children when a parent is given. */
    constructor Base(name: string, parent: Actor?, ghost world: set<Actor>)
      requires parent != null ==> parent.isGroup
      modifies parent
      ensures this.name == name && !isGroup
      ensures this.parent == parent && children == []
      ensures parent != null ==> parent.children == old(parent.children) + [this]
      ensures old(Consistent(world)) && (parent != null ==> parent in world) ==> Consistent(world + {this})
    {
      this.name := name;
      isGroup := false;
      this.parent := null;
      children := [];
      new;
      if Consistent(world) {
        var kids := Kids(world);
        var parents := Parents(world);
        AddDetached(world, kids, parents, this);
        ConsistentFrom(world + {this}, kids[this := []], parents[this := null]);
      }
      Attach(parent, world + {this});
    }

    /** The `children` accessor: a copy of the ordered child list. */
    function Children(): (r: seq<Actor>)
      reads this
      ensures |r| == |children| && forall i :: 0 <= i < |r| ==> r[i] == children[i]
    {
      children
    }

    /**
     * The `parent` setter: leave the former group, then join the end of the
     * new one. Setting the current parent again changes nothing.
     */
    method SetParent(p: Actor?, ghost world: set<Actor>)
      requires p != null ==> p.isGroup
      modifies this, parent, p
      ensures old(Consistent(world)) && this in world && (p != null ==> p in world) ==> Consistent(world)
      ensures parent == p
      ensures old(parent) == p ==> unchanged(this) && (p != null ==> unchanged(p))
      ensures old(parent) != p && old(parent) != null ==>
        old(parent).children == RemoveFirst(old(parent.children), this)
      ensures old(parent) != p && p != null ==> p.children == old(p.children) + [this]
      ensures this != old(parent) && this != p ==> children == old(children)
    {
      if parent == p {
        return;
      }
      Detach(world);
      Attach(p, world);
    }

    /** Leave the current group, if any. */
    method Detach(ghost world: set<Actor>)
      modifies this, parent
      ensures old(Consistent(world)) && this in world ==> Consistent(world)
      ensures parent == null
      ensures old(parent) != null ==> old(parent).children == RemoveFirst(old(parent.children), this)
      ensures this != old(parent) ==> children == old(children)
    {
      ghost var kids := Kids(world);
      ghost var parents := Parents(world);
      ghost var wasLinked := Linked(world, kids, parents) && this in world;
      var former := parent;
      if former != null {
        former.children := RemoveFirst(former.children, this);
      }
      parent := null;
      if wasLinked && former != null {
        Reattach(world, kids, parents, this, null);
        var moved := Moved(kids, former, null, this);
        forall g | g in world ensures g.children == moved[g] && g.parent == parents[this := null][g] {
          if g != former {
            assert g.children == old(g.children);
          }
          if g != this {
            assert g.parent == old(g.parent);
          }
        }
        ConsistentFrom(world, moved, parents[this := null]);
      }
    }

    /** Join the end of `p`'s children, if `p` is a group; the actor has no parent yet. */
    method Attach(p: Actor?, ghost world: set<Actor>)
      requires parent == null && (p != null ==> p.isGroup)
      modifies this, p
      ensures old(Consistent(world)) && this in world && (p != null ==> p in world) ==> Consistent(world)
      ensures parent == p
      ensures p != null ==> p.children == old(p.children) + [this]
      ensures this != p ==> children == old(children)
    {
      ghost var kids := Kids(world);
      ghost var parents := Parents(world);
      ghost var wasLinked := Linked(world, kids, parents) && this in world && (p != null ==> p in world);
      parent := p;
      if p != null {
        p.children := p.children + [this];
      }
      if wasLinked && p != null {
        Reattach(world, kids, parents, this, p);
        var moved := Moved(kids, null, p, this);
        forall g | g in world ensures g.children == moved[g] && g.parent == parents[this := p][g] {
          if g != p {
            assert g.children == old(g.children);
          }
          if g != this {
            assert g.parent == old(g.parent);
          }
        }
        ConsistentFrom(world, moved, parents[this := p]);
      }
    }

    /** `add_child(actor)`: the actor joins the end of this group's children. */
    method AddChild(a: Actor, ghost world: set<Actor>)
      requires isGroup
      modifies a, a.parent, this
      ensures old(Consistent(world)) && a in world && this in world ==> Consistent(world)
      ensures a.parent == this
      ensures old(a.parent) != this ==> children == old(children) + [a]
      ensures old(a.parent) == this ==> children == old(children)
      ensures old(a.parent) != this && old(a.parent) != null ==>
        old(a.parent).children == RemoveFirst(old(a.parent.children), a)
    {
      a.SetParent(this, world);
    }

    /** `remove_child(actor)`: detach a child of this group; anything else is reported and left alone. */
    method RemoveChild(a: Actor, ghost world: set<Actor>) returns (err: Option<RemoveError>)
      modifies a, this
      ensures old(Consistent(world)) && a in world ==> Consistent(world)
      ensures old(a.parent) == this ==> err == None && a.parent == null && children == RemoveFirst(old(children), a)
      ensures old(a.parent) != this ==> err == Some(NotAChild) && unchanged(a) && unchanged(this)
    {
      if a.parent != this {
        return Some(NotAChild);
      }
      a.SetParent(null, world);
      err := None;
    }
  }

  /**
   * The `children` accessor keeps insertion order and hands out a value:
   * a group given two detached actors in turn lists them in that order,
   * and extending the list it returned leaves the group's own list alone.
   */
  method ChildrenInOrder() returns (g: Actor, a1: Actor, a2: Actor, extended: seq<Actor>)
    ensures g.isGroup && g.name == "Group1" && a1.name == "Actor1" && a2.name == "Actor2"
    ensures a1 != a2 && a1.parent == g && a2.parent == g
    ensures g.Children() == [a1, a2]
    ensures |extended| == 3 && extended[..2] == [a1, a2] && |g.Children()| == 2
  {
    g := new Actor.Group("Group1", {});
    a1 := new Actor.Base("Actor1", null, {});
    a2 := new Actor.Base("Actor2", null, {});
    g.AddChild(a1, {});
    g.AddChild(a2, {});
    var dummy := new Actor.Group("dummy", {});
    var c := g.Children();
    c := c + [dummy];
    extended := c;
  }

  /**
   * The back-pointer invariant over a closed set of actors, stated on
   * snapshots of their child lists and parents: an actor is in a group's
   * child list exactly when its parent is that group, child lists have no
   * repeats, and only groups are parents.
   */
  ghost predicate Linked(world: set<Actor>, kids: map<Actor, seq<Actor>>, parents: map<Actor, Actor?>) {
    world <= kids.Keys && world <= parents.Keys
    && (forall g, a :: g in world && a in world ==> (a in kids[g] <==> parents[a] == g))
    && (forall g :: g in world ==> Distinct(kids[g]) && (forall a :: a in kids[g] ==> a in world))
    && (forall a :: a in world && parents[a] != null ==> parents[a] in world && parents[a].isGroup)
  }

  ghost function Kids(world: set<Actor>): map<Actor, seq<Actor>>
    reads world
  {
    map g | g in world :: g.children
  }

  ghost function Parents(world: set<Actor>): map<Actor, Actor?>
    reads world
  {
    map a | a in world :: a.parent
  }

  /** The back-pointer invariant on the current heap. */
  ghost predicate Consistent(world: set<Actor>)
    reads world
  {
    Linked(world, Kids(world), Parents(world))
  }

  /** A new actor with no parent and no children can join the world. */
  lemma AddDetached(world: set<Actor>, kids: map<Actor, seq<Actor>>, parents: map<Actor, Actor?>, a: Actor)
    requires Linked(world, kids, parents) && a !in world
    ensures Linked(world + {a}, kids[a := []], parents[a := null])
  {
  }

  /** The heap is consistent when it agrees with consistent snapshots. */
  lemma ConsistentFrom(world: set<Actor>, kids: map<Actor, seq<Actor>>, parents: map<Actor, Actor?>)
    requires Linked(world, kids, parents)
    requires forall g :: g in world ==> g.children == kids[g] && g.parent == parents[g]
    ensures Consistent(world)
  {
  }

  /** The child lists after `a` leaves `former` (if any) and joins the end of `p` (if any). */
  ghost function Moved(kids: map<Actor, seq<Actor>>, former: Actor?, p: Actor?, a: Actor): map<Actor, seq<Actor>> {
    var left := if former != null && former in kids then kids[former := RemoveFirst(kids[former], a)] else kids;
    if p != null && p in left then left[p := left[p] + [a]] else left
  }

  /** Moving one actor to another group keeps the back-pointer invariant. */
  lemma Reattach(world: set<Actor>, kids: map<Actor, seq<Actor>>, parents: map<Actor, Actor?>, a: Actor, p: Actor?)
    requires Linked(world, kids, parents)
    requires a in world && (p != null ==> p in world && p.isGroup) && parents[a] != p
    ensures Linked(world, Moved(kids, parents[a], p, a), parents[a := p])
  {
    var former := parents[a];
    var kids' := Moved(kids, former, p, a);
    var parents' := parents[a := p];
    if former != null {
      RemoveFirstDistinct(kids[former], a);
    }
    forall g | g in world
      ensures Distinct(kids'[g]) && (forall x :: x in kids'[g] ==> x in world)
    {
      if g == p {
        assert a !in kids[g];
        assert kids'[g] == kids[g] + [a];
      }
    }
    forall g, x | g in world && x in world
      ensures x in kids'[g] <==> parents'[x] == g
    {
      if g == former && former != null {
        assert kids'[g] == RemoveFirst(kids[g], a);
      } else if g == p {
        assert kids'[g] == kids[g] + [a];
      } else {
        assert kids'[g] == kids[g];
      }
    }
  }
}
