/**
 * Property panels. A property group becomes one editor per property; a tree
 * property becomes a tree of node widgets whose leaves are scalar editors
 * named `<node name>.<property name>`. Notifications from the scene are
 * routed to the editor with the matching name, and on the way every tree
 * editor is offered the value for the first leaf with that name.
 */
module PropertyEdit {
  import opened Wrappers
  import opened Json
  import ScenePath

  /** The value-type tag of a property; `OtherType` stands for any tag the editors do not know. */
  datatype ValueType = BoolType | IntegerType | FloatType | StringType | TreeType | OtherType(tag: int)

  /** The editor classes. */
  datatype EditorKind = BoolEdit | IntegerEdit | FloatEdit | StringEdit | TreeEdit

  datatype EditError = NotImplementedError

  /** A property: name, type tag, current value, read-only flag. */
  datatype Prop = Prop(name: string, valueType: ValueType, value: Json, readOnly: bool)

  /** A node of a tree property: own properties, then nested nodes. */
  datatype PropNode = PropNode(name: string, displayName: string, properties: seq<Prop>, children: seq<PropNode>)

  /** A property group: its prefix, its properties and the tree data its tree editors show. */
  datatype PropGroup = PropGroup(prefix: string, properties: seq<Prop>, treeData: seq<PropNode>)

  /** The address of one property value in a notification. */
  datatype PropertyKey = PropertyKey(actorPath: ScenePath.Path, groupPrefix: string, propertyName: string)

  /** The editor a property group creates for a type: every known tag has one, trees included. */
  function GroupEditorKind(t: ValueType): (r: Result<EditorKind, EditError>)
    ensures r.Err? <==> t.OtherType?
    ensures r == Ok(TreeEdit) <==> t == TreeType
  {
    match t
    case BoolType => Ok(BoolEdit)
    case IntegerType => Ok(IntegerEdit)
    case FloatType => Ok(FloatEdit)
    case StringType => Ok(StringEdit)
    case TreeType => Ok(TreeEdit)
    case OtherType(_) => Err(NotImplementedError)
  }

  /** The editor a tree node creates for a leaf: never a tree, and a string editor for anything unknown. */
  function LeafEditorKind(t: ValueType): (r: EditorKind)
    ensures r != TreeEdit
    ensures r == StringEdit <==> (t == StringType || t == TreeType || t.OtherType?)
  {
    match t
    case BoolType => BoolEdit
    case IntegerType => IntegerEdit
    case FloatType => FloatEdit
    case _ => StringEdit
  }

  /** On the scalar tags the two factories agree. */
  lemma KindsAgree(t: ValueType)
    requires t != TreeType && !t.OtherType?
    ensures GroupEditorKind(t) == Ok(LeafEditorKind(t))
  {
  }

  /** The name a leaf editor answers to. */
  function LeafName(nodeName: string, propName: string): (r: string)
    ensures |r| == |nodeName| + 1 + |propName| && r[|nodeName|] == '.'
    ensures r[..|nodeName|] == nodeName && r[|nodeName| + 1..] == propName
  {
    nodeName + "." + propName
  }

  /** Label width inside a node: shrunk by 16 per indent level, but never below 80. */
  function AdjustedLabelWidth(labelWidth: int, indent: nat): (r: int)
    ensures r >= 80 && r >= labelWidth - 16 * indent
    ensures r == 80 || r == labelWidth - 16 * indent
  {
    if labelWidth - 16 * indent > 80 then labelWidth - 16 * indent else 80
  }

  /** A minimum width as the widget keeps it: negative requests become 0. */
  function Clamp(w: int): (r: int)
    ensures r >= 0 && r >= w && (r == 0 || r == w)
  {
    if w < 0 then 0 else w
  }

  /** The width a node asks for on its own: indent, margins, label and a 200-pixel editor. */
  function OwnMinWidth(labelWidth: int, indent: nat): int {
    indent * 16 + 24 + labelWidth + 200
  }

  /** The minimum width of a node widget: its own, raised to the widest child. */
  function MinWidth(n: PropNode, labelWidth: int, indent: nat): int
    decreases n, 1
  {
    var own := Clamp(OwnMinWidth(labelWidth, indent));
    var widest := MaxMinWidth(n.children, labelWidth, indent + 1);
    if widest > own then widest else own
  }

  /** The widest of some sibling nodes, 0 when there are none. */
  function MaxMinWidth(ns: seq<PropNode>, labelWidth: int, indent: nat): int
    decreases ns, 0
  {
    if ns == [] then 0
    else
      var w := MinWidth(ns[|ns| - 1], labelWidth, indent);
      var rest := MaxMinWidth(ns[..|ns| - 1], labelWidth, indent);
      if w > rest then w else rest
  }

  /** Nesting depth below a node. */
  function Height(n: PropNode): nat
    decreases n, 1
  {
    if n.children == [] then 0 else 1 + MaxHeight(n.children)
  }

  function MaxHeight(ns: seq<PropNode>): nat
    decreases ns, 0
  {
    if ns == [] then 0
    else
      var h := Height(ns[|ns| - 1]);
      var rest := MaxHeight(ns[..|ns| - 1]);
      if h > rest then h else rest
  }

  /** The deepest node decides: a node is as wide as a node at its deepest descendant's indent. */
  lemma {:induction false} WidthFromHeight(n: PropNode, labelWidth: int, indent: nat)
    ensures MinWidth(n, labelWidth, indent) == Clamp(OwnMinWidth(labelWidth, indent + Height(n)))
    decreases n, 1
  {
    if n.children != [] {
      MaxWidthFromHeight(n.children, labelWidth, indent + 1);
    }
  }

  lemma {:induction false} MaxWidthFromHeight(ns: seq<PropNode>, labelWidth: int, indent: nat)
    requires ns != []
    ensures MaxMinWidth(ns, labelWidth, indent) == Clamp(OwnMinWidth(labelWidth, indent + MaxHeight(ns)))
    decreases ns, 0
  {
    WidthFromHeight(ns[|ns| - 1], labelWidth, indent);
    if |ns| > 1 {
      MaxWidthFromHeight(ns[..|ns| - 1], labelWidth, indent);
    }
  }

  /** What a leaf editor holds: name, class, label width, value and read-only flag. */
  datatype LeafSpec = LeafSpec(name: string, kind: EditorKind, labelWidth: int, value: Json, readOnly: bool)

  /** The leaf editors a node's own properties should produce, in order. */
  function PropSpecs(nodeName: string, ps: seq<Prop>, labelWidth: int): (r: seq<LeafSpec>)
    ensures |r| == |ps|
    ensures forall i :: 0 <= i < |ps| ==>
      r[i] == LeafSpec(LeafName(nodeName, ps[i].name), LeafEditorKind(ps[i].valueType), labelWidth, ps[i].value, ps[i].readOnly)
  {
    if ps == [] then []
    else
      var p := ps[|ps| - 1];
      PropSpecs(nodeName, ps[..|ps| - 1], labelWidth)
        + [LeafSpec(LeafName(nodeName, p.name), LeafEditorKind(p.valueType), labelWidth, p.value, p.readOnly)]
  }

  /** The leaf editors of a whole node, own properties first and then each child in turn. */
  function Expected(n: PropNode, labelWidth: int, indent: nat): seq<LeafSpec>
    decreases n, 1
  {
    PropSpecs(n.name, n.properties, AdjustedLabelWidth(labelWidth, indent))
      + ExpectedAll(n.children, labelWidth, indent + 1)
  }

  function ExpectedAll(ns: seq<PropNode>, labelWidth: int, indent: nat): seq<LeafSpec>
    decreases ns, 0
  {
    if ns == [] then []
    else ExpectedAll(ns[..|ns| - 1], labelWidth, indent) + Expected(ns[|ns| - 1], labelWidth, indent)
  }

  /** The leaf names of some nodes, in the order the editors are searched. */
  function Names(specs: seq<LeafSpec>): (r: seq<string>)
    ensures |r| == |specs| && forall i :: 0 <= i < |r| ==> r[i] == specs[i].name
  {
    if specs == [] then [] else [specs[0].name] + Names(specs[1..])
  }

  /** A node widget: its name, indent, own editors, child widgets and minimum width. */
  datatype NodeWidget = NodeWidget(name: string, indent: nat, edits: seq<Editor>, children: seq<NodeWidget>, minWidth: int)

  /** `get_property_edits`: the node's own editors, then its children's, depth first. */
  function PropertyEdits(w: NodeWidget): seq<Editor>
    decreases w, 1
  {
    w.edits + AllEdits(w.children)
  }

  function AllEdits(ws: seq<NodeWidget>): seq<Editor>
    decreases ws, 0
  {
    if ws == [] then [] else AllEdits(ws[..|ws| - 1]) + PropertyEdits(ws[|ws| - 1])
  }

  /** The first position whose editor has the name, or the length when none has. */
  function FirstNamed(es: seq<Editor>, name: string): (i: nat)
    ensures i <= |es|
    ensures i < |es| ==> es[i].name == name
    ensures forall j :: 0 <= j < i ==> es[j].name != name
  {
    if es == [] then 0
    else if es[0].name == name then 0
    else 1 + FirstNamed(es[1..], name)
  }

  /** A property editor. Tree editors own node widgets; scalar editors own none. */
  class Editor {
    const name: string
    const kind: EditorKind
    const labelWidth: int
    const nodes: seq<NodeWidget>
    /** Every leaf editor under the node widgets, in search order (`get_property_edits` of each node). */
    const leaves: seq<Editor>
    var value: Json
    var readOnly: bool

    constructor (name: string, kind: EditorKind, labelWidth: int, nodes: seq<NodeWidget>, value: Json)
      ensures this.name == name && this.kind == kind && this.labelWidth == labelWidth
      ensures this.nodes == nodes && this.value == value && !readOnly
      ensures leaves == AllEdits(nodes)
    {
      this.name := name;
      this.kind := kind;
      this.labelWidth := labelWidth;
      this.nodes := nodes;
      this.leaves := AllEdits(nodes);
      this.value := value;
      this.readOnly := false;
    }

    /** No leaf is itself a tree editor. */
    predicate WellFormed() {
      forall e :: e in leaves ==> e.kind != TreeEdit
    }

    /** The leaf `set_child_value` and `set_child_read_only` reach for a name: the first one, if any. */
    function ChildTarget(name: string): (r: set<Editor>)
      ensures |r| <= 1
      ensures forall e :: e in r ==> e in leaves && e.name == name
      ensures r == {} <==> forall e :: e in leaves ==> e.name != name
    {
      var i := FirstNamed(leaves, name);
      if i < |leaves| then {leaves[i]} else {}
    }

    /** `set_value`: a tree editor ignores it. */
    method SetValue(v: Json)
      modifies this
      ensures kind == TreeEdit ==> value == old(value)
      ensures kind != TreeEdit ==> value == v
      ensures readOnly == old(readOnly)
    {
      if kind != TreeEdit {
        value := v;
      }
    }

    /** `set_read_only`: a tree editor passes the flag to all of its leaves instead. */
    method SetReadOnly(ro: bool)
      modifies if kind == TreeEdit then set e | e in leaves else {this}
      ensures kind != TreeEdit ==> readOnly == ro && value == old(value)
      ensures kind == TreeEdit ==>
        forall e :: e in leaves ==> e.readOnly == ro && e.value == old(e.value)
    {
      if kind != TreeEdit {
        readOnly := ro;
      } else {
        for k := 0 to |leaves|
          invariant forall j :: 0 <= j < k ==> leaves[j].readOnly == ro
          invariant forall e :: e in leaves ==> e.value == old(e.value)
        {
          leaves[k].readOnly := ro;
        }
      }
    }

    /** `set_child_value`: the first leaf with the name takes the value; nothing else changes. */
    method SetChildValue(name: string, v: Json)
      requires WellFormed()
      modifies set e | e in leaves
      ensures forall e :: e in leaves ==>
        e.value == (if e in ChildTarget(name) then v else old(e.value)) && e.readOnly == old(e.readOnly)
    {
      for k := 0 to |leaves|
        invariant k <= FirstNamed(leaves, name)
        invariant forall e :: e in leaves ==> unchanged(e)
      {
        if leaves[k].name == name {
          leaves[k].SetValue(v);
          return;
        }
      }
    }

    /** `set_child_read_only`: the first leaf with the name takes the flag; nothing else changes. */
    method SetChildReadOnly(name: string, ro: bool)
      requires WellFormed()
      modifies set e | e in leaves
      ensures forall e :: e in leaves ==>
        e.readOnly == (if e in ChildTarget(name) then ro else old(e.readOnly)) && e.value == old(e.value)
    {
      for k := 0 to |leaves|
        invariant k <= FirstNamed(leaves, name)
        invariant forall e :: e in leaves ==> unchanged(e)
      {
        if leaves[k].name == name {
          leaves[k].SetReadOnly(ro);
          return;
        }
      }
    }
  }

  /** What a list of editors holds, read off the heap. */
  function Snapshot(es: seq<Editor>): (r: seq<LeafSpec>)
    reads set e | e in es
    ensures |r| == |es|
  {
    if es == [] then []
    else
      var e := es[|es| - 1];
      Snapshot(es[..|es| - 1]) + [LeafSpec(e.name, e.kind, e.labelWidth, e.value, e.readOnly)]
  }

  lemma {:induction false} SnapshotAt(es: seq<Editor>, i: nat)
    requires i < |es|
    ensures Snapshot(es)[i] == LeafSpec(es[i].name, es[i].kind, es[i].labelWidth, es[i].value, es[i].readOnly)
    decreases |es|
  {
    if i < |es| - 1 {
      SnapshotAt(es[..|es| - 1], i);
    }
  }

  /** A tree editor built from some data answers to a name exactly when the data has a leaf of that name. */
  lemma ChildTargetByName(t: Editor, specs: seq<LeafSpec>, name: string)
    requires Snapshot(t.leaves) == specs
    ensures t.ChildTarget(name) != {} <==> name in Names(specs)
  {
    if name in Names(specs) {
      var i :| 0 <= i < |specs| && Names(specs)[i] == name;
      SnapshotAt(t.leaves, i);
    }
    if t.ChildTarget(name) != {} {
      var i := FirstNamed(t.leaves, name);
      SnapshotAt(t.leaves, i);
      assert Names(specs)[i] == name;
    }
  }

  /** The widget `TreeNodeWidget(node, label_width, indent)` builds, with fresh leaf editors. */
  method BuildNode(n: PropNode, labelWidth: int, indent: nat) returns (w: NodeWidget)
    ensures w.name == n.name && w.indent == indent
    ensures Snapshot(PropertyEdits(w)) == Expected(n, labelWidth, indent)
    ensures w.minWidth == MinWidth(n, labelWidth, indent)
    ensures forall e :: e in PropertyEdits(w) ==> fresh(e) && e.kind != TreeEdit
    decreases n, 1
  {
    var edits := BuildOwnEdits(n.name, n.properties, AdjustedLabelWidth(labelWidth, indent));
    var kids, widest := BuildChildren(n.children, labelWidth, indent + 1);
    SnapshotConcat(edits, AllEdits(kids));
    var own := Clamp(OwnMinWidth(labelWidth, indent));
    w := NodeWidget(n.name, indent, edits, kids, if widest > own then widest else own);
  }

  /** The loop over a node's own properties: one leaf editor each, read-only ones switched to read-only. */
  method BuildOwnEdits(nodeName: string, ps: seq<Prop>, labelWidth: int) returns (edits: seq<Editor>)
    ensures Snapshot(edits) == PropSpecs(nodeName, ps, labelWidth)
    ensures forall e :: e in edits ==> fresh(e) && e.kind != TreeEdit
  {
    edits := [];
    for i := 0 to |ps|
      invariant Snapshot(edits) == PropSpecs(nodeName, ps[..i], labelWidth)
      invariant forall e :: e in edits ==> fresh(e) && e.kind != TreeEdit
    {
      var p := ps[i];
      ghost var snap := Snapshot(edits);
      var e := new Editor(LeafName(nodeName, p.name), LeafEditorKind(p.valueType), labelWidth, [], p.value);
      if p.readOnly {
        e.SetReadOnly(true);
      }
      assert Snapshot(edits) == snap;
      assert ps[..i + 1][..i] == ps[..i];
      assert (edits + [e])[..|edits|] == edits;
      edits := edits + [e];
    }
    assert ps[..|ps|] == ps;
  }

  /** The loop over child nodes: one widget each, and the widest of their minimum widths. */
  method BuildChildren(ns: seq<PropNode>, labelWidth: int, indent: nat) returns (ws: seq<NodeWidget>, widest: int)
    ensures Snapshot(AllEdits(ws)) == ExpectedAll(ns, labelWidth, indent)
    ensures widest == MaxMinWidth(ns, labelWidth, indent)
    ensures forall e :: e in AllEdits(ws) ==> fresh(e) && e.kind != TreeEdit
    decreases ns, 0
  {
    ws := [];
    widest := 0;
    for i := 0 to |ns|
      invariant Snapshot(AllEdits(ws)) == ExpectedAll(ns[..i], labelWidth, indent)
      invariant widest == MaxMinWidth(ns[..i], labelWidth, indent)
      invariant forall e :: e in AllEdits(ws) ==> fresh(e) && e.kind != TreeEdit
    {
      ghost var before := AllEdits(ws);
      ghost var snap := Snapshot(before);
      var c := BuildNode(ns[i], labelWidth, indent);
      assert Snapshot(before) == snap;
      assert ns[..i + 1][..i] == ns[..i];
      assert ExpectedAll(ns[..i + 1], labelWidth, indent)
        == ExpectedAll(ns[..i], labelWidth, indent) + Expected(ns[i], labelWidth, indent);
      AllEditsAppend(ws, c);
      SnapshotConcat(AllEdits(ws), PropertyEdits(c));
      ws := ws + [c];
      if c.minWidth > widest {
        widest := c.minWidth;
      }
    }
    assert ns[..|ns|] == ns;
  }

  lemma {:induction false} SnapshotConcat(a: seq<Editor>, b: seq<Editor>)
    ensures Snapshot(a + b) == Snapshot(a) + Snapshot(b)
    decreases |b|
  {
    if b == [] {
      assert a + b == a;
    } else {
      assert (a + b)[..|a + b| - 1] == a + b[..|b| - 1];
      SnapshotConcat(a, b[..|b| - 1]);
    }
  }

  lemma {:induction false} AllEditsAppend(ws: seq<NodeWidget>, w: NodeWidget)
    ensures AllEdits(ws + [w]) == AllEdits(ws) + PropertyEdits(w)
  {
    assert (ws + [w])[..|ws|] == ws;
  }

  /** A `TreePropertyEdit`: one node widget per top-level node of the group's tree data, at indent 0. */
  method NewTreeEdit(name: string, treeData: seq<PropNode>, labelWidth: int, value: Json) returns (t: Editor)
    ensures fresh(t) && t.name == name && t.kind == TreeEdit && t.value == value && !t.readOnly
    ensures t.WellFormed()
    ensures Snapshot(t.leaves) == ExpectedAll(treeData, labelWidth, 0)
    ensures forall e :: e in t.leaves ==> fresh(e) && e != t
  {
    var ws, _ := BuildChildren(treeData, labelWidth, 0);
    ghost var snap := Snapshot(AllEdits(ws));
    t := new Editor(name, TreeEdit, labelWidth, ws, value);
    assert Snapshot(t.leaves) == snap;
  }

  /** The specs with every read-only flag forced on when `ro` holds. */
  function Lock(specs: seq<LeafSpec>, ro: bool): (r: seq<LeafSpec>)
    ensures |r| == |specs|
    ensures forall i :: 0 <= i < |r| ==> r[i] == specs[i].(readOnly := specs[i].readOnly || ro)
  {
    if specs == [] then []
    else Lock(specs[..|specs| - 1], ro) + [specs[|specs| - 1].(readOnly := specs[|specs| - 1].readOnly || ro)]
  }

  /** Switching every editor of a list to read-only, values kept, locks its snapshot. */
  twostate lemma {:induction false} LockedSnapshot(es: seq<Editor>)
    requires forall e :: e in es ==> e.readOnly && e.value == old(e.value)
    ensures Snapshot(es) == Lock(old(Snapshot(es)), true)
    decreases |es|
  {
    if es != [] {
      LockedSnapshot(es[..|es| - 1]);
    }
  }

  /** `set_read_only(True)` on a tree editor, seen through the snapshot of its leaves. */
  method LockTree(t: Editor)
    requires t.kind == TreeEdit
    modifies set e | e in t.leaves
    ensures Snapshot(t.leaves) == Lock(old(Snapshot(t.leaves)), true)
  {
    t.SetReadOnly(true);
    LockedSnapshot(t.leaves);
  }

  /** The editor a group made for a property: right name and class, and the property's value and flag. */
  ghost predicate Made(e: Editor, p: Prop, treeData: seq<PropNode>, labelWidth: int)
    reads e, set l | l in e.leaves
  {
    && e.name == p.name
    && GroupEditorKind(p.valueType) == Ok(e.kind)
    && e.WellFormed()
    && (e.kind != TreeEdit ==> e.value == p.value && e.readOnly == p.readOnly && e.labelWidth == labelWidth)
    && (e.kind == TreeEdit ==> Snapshot(e.leaves) == Lock(ExpectedAll(treeData, labelWidth, 0), p.readOnly))
  }

  /** `_create_property_edit` followed by `set_read_only(True)` for a read-only property. */
  method MakeEditor(p: Prop, treeData: seq<PropNode>, labelWidth: int) returns (r: Result<Editor, EditError>)
    ensures r.Err? <==> p.valueType.OtherType?
    ensures r.Ok? ==> fresh(r.value) && Made(r.value, p, treeData, labelWidth)
    ensures r.Ok? ==> forall l :: l in r.value.leaves ==> fresh(l)
  {
    match GroupEditorKind(p.valueType)
    case Err(err) =>
      return Err(err);
    case Ok(kind) =>
      var e: Editor;
      if kind == TreeEdit {
        e := NewTreeEdit(p.name, treeData, labelWidth, p.value);
        if p.readOnly {
          LockTree(e);
        } else {
          assert Lock(Snapshot(e.leaves), false) == Snapshot(e.leaves);
        }
      } else {
        e := new Editor(p.name, kind, labelWidth, [], p.value);
        if p.readOnly {
          e.SetReadOnly(true);
        }
      }
      return Ok(e);
  }

  /** Every leaf editor under some editors. */
  function LeafObjects(es: seq<Editor>): (r: set<Editor>)
    ensures forall i, e :: 0 <= i < |es| && e in es[i].leaves ==> e in r
  {
    if es == [] then {}
    else
      var t := es[|es| - 1];
      LeafObjects(es[..|es| - 1]) + set e | e in t.leaves
  }

  /** The leaves the tree editors among `es` reach for a name: each one's first match. */
  function TreeTargets(es: seq<Editor>, name: string): (r: set<Editor>)
    ensures forall e :: e in r ==> e.name == name && e in LeafObjects(es)
  {
    if es == [] then {}
    else
      var t := es[|es| - 1];
      TreeTargets(es[..|es| - 1], name) + (if t.kind == TreeEdit then t.ChildTarget(name) else {})
  }

  /** The editors of one property group (`PropertyGroupEdit`). */
  class GroupEdit {
    const actorPath: ScenePath.Path
    const group: PropGroup
    const edits: seq<Editor>
    /** The editors and all of their leaves. */
    ghost const Repr: set<Editor>

    constructor (actorPath: ScenePath.Path, group: PropGroup, edits: seq<Editor>)
      ensures this.actorPath == actorPath && this.group == group && this.edits == edits
      ensures Repr == (set e | e in edits) + LeafObjects(edits)
    {
      this.actorPath := actorPath;
      this.group := group;
      this.edits := edits;
      this.Repr := (set e | e in edits) + LeafObjects(edits);
    }

    /** No leaf of any editor is a tree editor. */
    ghost predicate Valid() {
      && Repr == (set e | e in edits) + LeafObjects(edits)
      && forall e :: e in edits ==> e.WellFormed()
    }

    /** Whether a value notification is for this group: not an echo from the panel, same actor, same prefix. */
    predicate Accepts(key: PropertyKey, source: string) {
      source != "ui" && key.actorPath == actorPath && key.groupPrefix == group.prefix
    }

    /**
     * The editors a value for `name` reaches: the first leaf with the name in
     * every tree editor before the first editor with the name, and that editor
     * itself unless it is a tree editor.
     */
    function ValueTargets(name: string): (r: set<Editor>)
      ensures forall e :: e in r ==> e.name == name
    {
      var m := FirstNamed(edits, name);
      TreeTargets(edits[..m], name) + (if m < |edits| && edits[m].kind != TreeEdit then {edits[m]} else {})
    }

    /**
     * The editors a read-only flag for `name` reaches: as for values, except
     * that a tree editor with the name passes the flag to all of its leaves.
     */
    function ReadOnlyTargets(name: string): (r: set<Editor>) {
      var m := FirstNamed(edits, name);
      TreeTargets(edits[..m], name)
        + (if m == |edits| then {}
           else if edits[m].kind == TreeEdit then set e | e in edits[m].leaves
           else {edits[m]})
    }

    /** `on_property_changed`: exactly the value targets take the value, when the notification is for this group. */
    method OnPropertyChanged(key: PropertyKey, v: Json, source: string)
      requires Valid()
      modifies Repr
      ensures forall e :: e in Repr ==>
        e.value == (if Accepts(key, source) && e in ValueTargets(key.propertyName) then v else old(e.value))
        && e.readOnly == old(e.readOnly)
    {
      if source == "ui" || key.actorPath != actorPath || key.groupPrefix != group.prefix {
        return;
      }
      DeliverValue(key.propertyName, v);
    }

    /** The loop of `on_property_changed`, once the notification is known to be for this group. */
    method DeliverValue(name: string, v: Json)
      requires Valid()
      modifies Repr
      ensures forall e :: e in Repr ==>
        e.value == (if e in ValueTargets(name) then v else old(e.value)) && e.readOnly == old(e.readOnly)
    {
      for k := 0 to |edits|
        invariant k <= FirstNamed(edits, name)
        invariant forall e :: e in Repr ==>
          e.value == (if e in TreeTargets(edits[..k], name) then v else old(e.value)) && e.readOnly == old(e.readOnly)
      {
        var edit := edits[k];
        assert edits[..k + 1][..k] == edits[..k];
        if edit.name == name {
          edit.SetValue(v);
          return;
        }
        if edit.kind == TreeEdit {
          edit.SetChildValue(name, v);
        }
      }
      assert edits[..|edits|] == edits;
    }

    /** `on_property_read_only_changed`: exactly the read-only targets take the flag, when the address is this group's. */
    method OnPropertyReadOnlyChanged(path: ScenePath.Path, prefix: string, name: string, ro: bool)
      requires Valid()
      modifies Repr
      ensures forall e :: e in Repr ==>
        e.readOnly == (if path == actorPath && prefix == group.prefix && e in ReadOnlyTargets(name) then ro else old(e.readOnly))
        && e.value == old(e.value)
    {
      if path != actorPath || prefix != group.prefix {
        return;
      }
      for k := 0 to |edits|
        invariant k <= FirstNamed(edits, name)
        invariant forall e :: e in Repr ==>
          e.readOnly == (if e in TreeTargets(edits[..k], name) then ro else old(e.readOnly)) && e.value == old(e.value)
      {
        var edit := edits[k];
        assert edits[..k + 1][..k] == edits[..k];
        if edit.name == name {
          edit.SetReadOnly(ro);
          return;
        }
        if edit.kind == TreeEdit {
          edit.SetChildReadOnly(name, ro);
        }
      }
      assert edits[..|edits|] == edits;
    }
  }

  /** `PropertyGroupEdit(actor_path, group, label_width)`: one editor per property, or the first unsupported type's error. */
  method NewGroupEdit(actorPath: ScenePath.Path, group: PropGroup, labelWidth: int) returns (r: Result<GroupEdit, EditError>)
    ensures r.Err? <==> exists i :: 0 <= i < |group.properties| && group.properties[i].valueType.OtherType?
    ensures r.Ok? ==> fresh(r.value) && r.value.actorPath == actorPath && r.value.group == group && r.value.Valid()
    ensures r.Ok? ==> |r.value.edits| == |group.properties|
    ensures r.Ok? ==> forall i :: 0 <= i < |group.properties| ==>
      Made(r.value.edits[i], group.properties[i], group.treeData, labelWidth)
  {
    var es: seq<Editor> := [];
    for i := 0 to |group.properties|
      invariant |es| == i
      invariant forall j :: 0 <= j < i ==> !group.properties[j].valueType.OtherType?
      invariant forall j :: 0 <= j < i ==> Made(es[j], group.properties[j], group.treeData, labelWidth)
    {
      var made := MakeEditor(group.properties[i], group.treeData, labelWidth);
      if made.Err? {
        return Err(made.error);
      }
      es := es + [made.value];
    }
    var g := new GroupEdit(actorPath, group, es);
    return Ok(g);
  }
}
