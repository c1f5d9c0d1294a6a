/**
 * Scene paths: `/`-separated names from the root. Equality and hashing are
 * structural, so a path is a value whose segments are its whole identity.
 */
module ScenePath {
  import opened Wrappers
  import opened Text

  /** A path as its list of names; the root has none. */
  datatype Path = Path(segments: seq<string>)

  /** Every segment is a non-empty name without a separator. */
  predicate Valid(p: Path) {
    forall k :: 0 <= k < |p.segments| ==> p.segments[k] != [] && '/' !in p.segments[k]
  }

  /** `Path()` and `Path.root_path()`. */
  const Root := Path([])

  predicate IsRoot(p: Path) { p.segments == [] }

  /** The pieces of a split that are not empty. */
  function NonEmpty(parts: seq<string>): (r: seq<string>)
    ensures |r| <= |parts|
    ensures forall k :: 0 <= k < |r| ==> r[k] != [] && r[k] in parts
    ensures (forall k :: 0 <= k < |parts| ==> parts[k] != []) ==> r == parts
  {
    if parts == [] then []
    else if parts[0] == [] then NonEmpty(parts[1..])
    else [parts[0]] + NonEmpty(parts[1..])
  }

  /** `Path(s)`: the string split on `/`, with empty pieces dropped. */
  function Parse(s: string): (p: Path)
    ensures Valid(p)
  {
    var parts := SplitOn(s, '/');
    var segs := NonEmpty(parts);
    assert forall k :: 0 <= k < |segs| ==> '/' !in segs[k] by {
      forall k | 0 <= k < |segs| ensures '/' !in segs[k] {
        assert segs[k] in parts;
      }
    }
    Path(segs)
  }

  /** The `/name` pieces of a path, concatenated. */
  function Render(segs: seq<string>): string {
    if segs == [] then "" else "/" + segs[0] + Render(segs[1..])
  }

  /** `str(path)`: `/` for the root, otherwise `/a/b/…`. */
  function ToString(p: Path): (s: string)
    ensures s != [] && s[0] == '/'
  {
    if IsRoot(p) then "/" else Render(p.segments)
  }

  /** `path / name` */
  function Child(p: Path, name: string): (c: Path)
    ensures |c.segments| == |p.segments| + 1 && c.segments[|p.segments|] == name
  {
    Path(p.segments + [name])
  }

  /** `parent()`: the path without its last name, `None` for the root. */
  function Parent(p: Path): (r: Option<Path>)
    ensures r.None? <==> IsRoot(p)
    ensures r.Some? ==> |r.value.segments| + 1 == |p.segments|
  {
    if IsRoot(p) then None else Some(Path(p.segments[..|p.segments| - 1]))
  }

  /** `name()`: the last segment, empty for the root. */
  function Name(p: Path): (n: string)
    ensures IsRoot(p) ==> n == []
    ensures !IsRoot(p) ==> n == p.segments[|p.segments| - 1]
  {
    if IsRoot(p) then "" else p.segments[|p.segments| - 1]
  }

  /** `is_descendant_of`: a strict, segment-wise prefix test. */
  predicate IsDescendantOf(p: Path, ancestor: Path) {
    |ancestor.segments| < |p.segments| && p.segments[..|ancestor.segments|] == ancestor.segments
  }

  /** A path is the parent of each of its children, and they are its descendants. */
  lemma ParentOfChild(p: Path, name: string)
    ensures Parent(Child(p, name)) == Some(p)
    ensures IsDescendantOf(Child(p, name), p)
  {
    assert (p.segments + [name])[..|p.segments|] == p.segments;
  }

  /** A non-root path is the child of its parent named by its last segment. */
  lemma ChildOfParent(p: Path)
    requires !IsRoot(p)
    ensures Child(Parent(p).value, Name(p)) == p
    ensures IsDescendantOf(p, Parent(p).value)
  {
    assert p.segments == p.segments[..|p.segments| - 1] + [p.segments[|p.segments| - 1]];
  }

  /** Every path other than the root is a descendant of the root. */
  lemma DescendantOfRoot(p: Path)
    ensures IsDescendantOf(p, Root) <==> !IsRoot(p)
  {
  }

  /** The descendant relation is a strict order. */
  lemma DescendantIrreflexive(p: Path)
    ensures !IsDescendantOf(p, p)
  {
  }

  lemma DescendantAsymmetric(p: Path, q: Path)
    requires IsDescendantOf(p, q)
    ensures !IsDescendantOf(q, p)
  {
  }

  lemma DescendantTransitive(p: Path, q: Path, r: Path)
    requires IsDescendantOf(p, q) && IsDescendantOf(q, r)
    ensures IsDescendantOf(p, r)
  {
    assert p.segments[..|r.segments|] == p.segments[..|q.segments|][..|r.segments|];
  }

  /**
   * Descending one step: `p` is under `a` exactly when `p`'s parent is `a`
   * or is itself under `a`.
   */
  lemma DescendantStep(p: Path, a: Path)
    ensures IsDescendantOf(p, a) <==>
      (Parent(p).Some? && (Parent(p).value == a || IsDescendantOf(Parent(p).value, a)))
  {
    if Parent(p).Some? {
      var pp := Parent(p).value;
      if |a.segments| <= |pp.segments| {
        assert pp.segments[..|a.segments|] == p.segments[..|a.segments|];
      }
    }
  }

  /**
   * Two children of the same parent with different names are not under one
   * another: `/a/b` is not under `/a/c`, and `/aaa` is not under `/a`.
   */
  lemma SiblingsUnrelated(p: Path, a: string, b: string, q: Path)
    requires a != b
    ensures Child(p, a) != Child(p, b)
    ensures !(IsDescendantOf(q, Child(p, a)) && IsDescendantOf(q, Child(p, b)))
  {
  }

  lemma {:induction false} SplitRender(segs: seq<string>)
    requires Valid(Path(segs))
    ensures SplitOn(Render(segs), '/') == [""] + segs
    decreases |segs|
  {
    if segs == [] {
    } else {
      var rest := Render(segs[1..]);
      SplitRender(segs[1..]);
      SplitPrefix(segs[0], rest);
      assert Render(segs) == ['/'] + (segs[0] + rest);
      assert SplitOn(Render(segs), '/') == [""] + SplitOn(segs[0] + rest, '/');
      assert segs == [segs[0]] + segs[1..];
    }
  }

  /** A separator-free name glued in front of a string that starts with `/` (or is empty) is one piece. */
  lemma {:induction false} SplitPrefix(a: string, t: string)
    requires '/' !in a
    requires t == [] || t[0] == '/'
    ensures SplitOn(a + t, '/') == [a] + SplitOn(t, '/')[1..]
    decreases |a|
  {
    if a == [] {
      assert a + t == t;
      if t != [] {
        assert SplitOn(t, '/') == [""] + SplitOn(t[1..], '/');
      }
    } else {
      SplitPrefix(a[1..], t);
      assert (a + t)[1..] == a[1..] + t;
      assert [a[0]] + a[1..] == a;
    }
  }

  /** Parsing the printed form of a path gives the path back. */
  lemma PathRoundTrip(p: Path)
    requires Valid(p)
    ensures Parse(ToString(p)) == p
  {
    if IsRoot(p) {
      assert SplitOn("/", '/') == ["", ""];
    } else {
      SplitRender(p.segments);
      assert NonEmpty([""] + p.segments) == NonEmpty(p.segments);
    }
  }
}
