/**
 * Discovery of playable levels from the `.pak` archives in the asset cache:
 * each archive may carry a `scene_layouts.json` listing scenes, whose
 * `.prefab` paths are rewritten to the `.spawnable` form the engine loads.
 * Reading archives and parsing JSON are outside the model: each archive
 * arrives as its parsed content.
 */
module LevelDiscovery {
  import opened Wrappers
  import opened Text
  import opened Json

  /** Errors that escape the scan: they are raised outside its `try` block. */
  datatype ScanError =
    | AttributeError  // a truthy scene path that is not a string has no `lower`
    | TypeError       // a `"scenes"` value that cannot be iterated

  /** What opening one archive yields. */
  datatype Pak =
    | Unreadable        // not a zip, invalid JSON, or any other read failure
    | NoLayouts         // a zip without `scene_layouts.json`
    | Layouts(data: Json)

  /** One discovered level: the display name (any truthy JSON value) and the path. */
  datatype Level = Level(name: Json, path: string)

  const PrefabSuffix := ".prefab"
  const SpawnableSuffix := ".spawnable"

  /** `_to_spawnable_path` on a string: a `.prefab` ending, in any letter case, becomes `.spawnable`. */
  function SpawnablePath(p: string): (r: string)
    ensures EndsWith(Lower(p), PrefabSuffix) ==> r == p[..|p| - 7] + SpawnableSuffix
    ensures !EndsWith(Lower(p), PrefabSuffix) ==> r == p
  {
    if EndsWith(Lower(p), PrefabSuffix) then p[..|p| - 7] + SpawnableSuffix else p
  }

  /** `_to_spawnable_path`: falsy values give `None`; other non-strings cannot be lowered. */
  function ToSpawnablePath(p: Json): (r: Result<Option<string>, ScanError>)
    ensures !Truthy(p) ==> r == Ok(None)
    ensures Truthy(p) && p.JStr? ==> r == Ok(Some(SpawnablePath(p.s)))
    ensures Truthy(p) && !p.JStr? ==> r == Err(AttributeError)
  {
    if !Truthy(p) then Ok(None)
    else if p.JStr? then Ok(Some(SpawnablePath(p.s)))
    else Err(AttributeError)
  }

  /** A rewritten path never ends in `.prefab`, so rewriting twice is rewriting once. */
  lemma SpawnablePathIdempotent(p: string)
    ensures !EndsWith(Lower(SpawnablePath(p)), PrefabSuffix)
    ensures SpawnablePath(SpawnablePath(p)) == SpawnablePath(p)
    ensures |SpawnablePath(p)| >= |p| && (p != [] ==> SpawnablePath(p) != [])
  {
    var r := SpawnablePath(p);
    if EndsWith(Lower(p), PrefabSuffix) {
      var lr := Lower(r);
      assert lr[|lr| - 7] == LowerChar(r[|r| - 7]) == 'a';
    }
  }

  /** Where the scene list of a layout file lives: the top-level list, or the `"scenes"` entry of an object. */
  function ScenesOf(data: Json): (r: Result<seq<Json>, ScanError>)
    ensures data.JList? ==> r == Ok(data.items)
    ensures !data.JList? && !data.JDict? ==> r == Ok([])
    ensures data.JDict? ==>
      var v := Get(data.fields, "scenes", JList([]));
      && (v.JList? ==> r == Ok(v.items))
      && (v.JStr? || v.JDict? ==> r == Ok([]))
      && (v.JNull? || v.JBool? || v.JInt? ==> r == Err(TypeError))
  {
    match data
    case JList(items) => Ok(items)
    case JDict(fields) =>
      (match Get(fields, "scenes", JList([]))
       case JList(items) => Ok(items)
       // a string iterates as characters and an object as its keys: none is a scene
       case JStr(_) => Ok([])
       case JDict(_) => Ok([])
       case _ => Err(TypeError))
    case _ => Ok([])
  }

  /** The levels one list of scene entries yields, in order. */
  function SceneLevels(scenes: seq<Json>): (r: Result<seq<Level>, ScanError>)
    ensures r.Ok? ==> |r.value| <= |scenes|
  {
    if scenes == [] then Ok([])
    else
      var scene := scenes[0];
      if !scene.JDict? then SceneLevels(scenes[1..])
      else
        var name := Get(scene.fields, "name", JNull);
        match ToSpawnablePath(Get(scene.fields, "path", JNull))
        case Err(e) => Err(e)
        case Ok(path) =>
          if path.None? || path.value == [] then SceneLevels(scenes[1..])
          else
            match SceneLevels(scenes[1..])
            case Err(e) => Err(e)
            case Ok(rest) => Ok([Level(Or(name, JStr(path.value)), path.value)] + rest)
  }

  /** Every level read has a non-empty spawnable path and a truthy name. */
  predicate WellFormed(levels: seq<Level>) {
    forall k :: 0 <= k < |levels| ==>
      levels[k].path != [] && !EndsWith(Lower(levels[k].path), PrefabSuffix) && Truthy(levels[k].name)
  }

  lemma {:induction false} SceneLevelsWellFormed(scenes: seq<Json>)
    requires SceneLevels(scenes).Ok?
    ensures WellFormed(SceneLevels(scenes).value)
    decreases |scenes|
  {
    if scenes != [] {
      SceneLevelsWellFormed(scenes[1..]);
      var scene := scenes[0];
      if scene.JDict? {
        var p := Get(scene.fields, "path", JNull);
        if Truthy(p) && p.JStr? {
          SpawnablePathIdempotent(p.s);
        }
      }
    }
  }

  /**
   * A scene entry yields level `l`: it is a table whose `path` is a non-empty
   * string, `l.path` is that path rewritten, and `l.name` is the entry's
   * name, or the rewritten path when the name is falsy or missing.
   */
  predicate Yields(scene: Json, l: Level) {
    && scene.JDict?
    && var p := Get(scene.fields, "path", JNull);
    && p.JStr? && p.s != []
    && l.path == SpawnablePath(p.s)
    && l.name == Or(Get(scene.fields, "name", JNull), JStr(l.path))
  }

  /** A table entry whose path is truthy but not a string: `lower` fails on it. */
  predicate BadPath(scene: Json) {
    scene.JDict? && var p := Get(scene.fields, "path", JNull); Truthy(p) && !p.JStr?
  }

  /** The scene list fails, with AttributeError, exactly when some table entry has a truthy non-string path. */
  lemma {:induction false} SceneLevelsFails(scenes: seq<Json>)
    ensures SceneLevels(scenes).Err? <==> exists k :: 0 <= k < |scenes| && BadPath(scenes[k])
    ensures SceneLevels(scenes).Err? ==> SceneLevels(scenes).error == AttributeError
    decreases |scenes|
  {
    if scenes != [] {
      SceneLevelsFails(scenes[1..]);
      if (exists k :: 0 <= k < |scenes[1..]| && BadPath(scenes[1..][k])) {
        var k :| 0 <= k < |scenes[1..]| && BadPath(scenes[1..][k]);
        assert BadPath(scenes[k + 1]);
      }
      if (exists k :: 0 <= k < |scenes| && BadPath(scenes[k])) {
        var k :| 0 <= k < |scenes| && BadPath(scenes[k]);
        if k > 0 {
          assert BadPath(scenes[1..][k - 1]);
        }
      }
    }
  }

  /**
   * When the scene list is read, its levels are exactly those the entries
   * yield: non-table entries and entries with a missing or empty path are
   * dropped, and a missing name becomes the path.
   */
  lemma {:induction false} SceneLevelsMembers(scenes: seq<Json>, l: Level)
    requires SceneLevels(scenes).Ok?
    ensures l in SceneLevels(scenes).value <==> exists k :: 0 <= k < |scenes| && Yields(scenes[k], l)
    decreases |scenes|
  {
    if scenes != [] {
      var scene := scenes[0];
      assert SceneLevels(scenes[1..]).Ok?;
      SceneLevelsMembers(scenes[1..], l);
      if (exists k :: 0 <= k < |scenes[1..]| && Yields(scenes[1..][k], l)) {
        var k :| 0 <= k < |scenes[1..]| && Yields(scenes[1..][k], l);
        assert Yields(scenes[k + 1], l);
      }
      if (exists k :: 0 <= k < |scenes| && Yields(scenes[k], l)) {
        var k :| 0 <= k < |scenes| && Yields(scenes[k], l);
        if k > 0 {
          assert Yields(scenes[1..][k - 1], l);
        }
      }
      if scene.JDict? {
        var p := Get(scene.fields, "path", JNull);
        if p.JStr? && p.s != [] {
          SpawnablePathIdempotent(p.s);
        }
      }
    }
  }

  /** `_read_scene_layouts` on the archive's content. */
  method ReadSceneLayouts(pak: Pak) returns (r: Result<seq<Level>, ScanError>)
    ensures !pak.Layouts? ==> r == Ok([])
    ensures pak.Layouts? ==>
      r == (match ScenesOf(pak.data) case Err(e) => Err(e) case Ok(scenes) => SceneLevels(scenes))
  {
    if !pak.Layouts? {
      return Ok([]);
    }
    var scenes := ScenesOf(pak.data);
    if scenes.Err? {
      return Err(scenes.error);
    }
    var items := scenes.value;
    var results: seq<Level> := [];
    assert items[0..] == items;
    match SceneLevels(items) {
      case Err(_) =>
      case Ok(rest) => assert results + rest == rest;
    }
    for i := 0 to |items|
      invariant SceneLevels(items) ==
        (match SceneLevels(items[i..]) case Err(e) => Err(e) case Ok(rest) => Ok(results + rest))
    {
      assert items[i..][1..] == items[i + 1..];
      assert items[i..][0] == items[i];
      var scene := items[i];
      if !scene.JDict? {
        continue;
      }
      var name := Get(scene.fields, "name", JNull);
      var path := ToSpawnablePath(Get(scene.fields, "path", JNull));
      if path.Err? {
        return Err(path.error);
      }
      if path.value.None? || path.value.value == [] {
        continue;
      }
      var level := Level(Or(name, JStr(path.value.value)), path.value.value);
      match SceneLevels(items[i + 1..]) {
        case Err(_) =>
        case Ok(rest) => assert results + ([level] + rest) == (results + [level]) + rest;
      }
      results := results + [level];
    }
    assert items[|items|..] == [];
    assert results + [] == results;
    return Ok(results);
  }

  function Paths(levels: seq<Level>): (r: set<string>)
    ensures forall p :: p in r <==> exists k :: 0 <= k < |levels| && levels[k].path == p
  {
    set k | 0 <= k < |levels| :: levels[k].path
  }

  lemma PathsAppend(levels: seq<Level>, x: Level)
    ensures Paths(levels + [x]) == Paths(levels) + {x.path}
  {
    assert forall k :: 0 <= k < |levels| ==> (levels + [x])[k] == levels[k];
    assert (levels + [x])[|levels|] == x;
  }

  /** Keep each path's first level, in order: the effect of the `seen_paths` set. */
  function Dedup(levels: seq<Level>): seq<Level>
  {
    if levels == [] then []
    else
      var kept := Dedup(levels[..|levels| - 1]);
      var last := levels[|levels| - 1];
      if last.path in Paths(kept) then kept else kept + [last]
  }

  /** Every path of the input is represented in the de-duplicated list. */
  lemma {:induction false} DedupPaths(levels: seq<Level>)
    ensures Paths(Dedup(levels)) == Paths(levels)
    decreases |levels|
  {
    if levels != [] {
      var init := levels[..|levels| - 1];
      DedupPaths(init);
      assert levels == init + [levels[|levels| - 1]];
      PathsAppend(init, levels[|levels| - 1]);
      PathsAppend(Dedup(init), levels[|levels| - 1]);
    }
  }

  /** The de-duplicated list has one level per path. */
  lemma {:induction false} DedupDistinct(levels: seq<Level>)
    ensures forall a, b :: 0 <= a < b < |Dedup(levels)| ==> Dedup(levels)[a].path != Dedup(levels)[b].path
    decreases |levels|
  {
    if levels != [] {
      DedupDistinct(levels[..|levels| - 1]);
    }
  }

  /** First comes first: `j` is the earliest index with `levels[j]`'s path. */
  predicate FirstWithPath(levels: seq<Level>, j: int) {
    0 <= j < |levels| && forall i :: 0 <= i < j ==> levels[i].path != levels[j].path
  }

  /** Each level of `kept` is the first level of `levels` with its path. */
  ghost predicate KeepsFirst(levels: seq<Level>, kept: seq<Level>) {
    forall k :: 0 <= k < |kept| ==> IsFirstOf(levels, kept[k])
  }

  /** `x` is the first level of `levels` with its path. */
  ghost predicate IsFirstOf(levels: seq<Level>, x: Level) {
    exists j :: FirstWithPath(levels, j) && x == levels[j]
  }

  /** The level kept for a path is the first level with that path. */
  lemma {:induction false} DedupKeepsFirst(levels: seq<Level>)
    ensures KeepsFirst(levels, Dedup(levels))
    decreases |levels|
  {
    if levels != [] {
      var init := levels[..|levels| - 1];
      DedupKeepsFirst(init);
      DedupPaths(init);
      var kept := Dedup(init);
      var last := levels[|levels| - 1];
      var d := Dedup(levels);
      forall k | 0 <= k < |d|
        ensures IsFirstOf(levels, d[k])
      {
        if k < |kept| {
          assert IsFirstOf(init, kept[k]);
          var j :| FirstWithPath(init, j) && kept[k] == init[j];
          assert forall i :: 0 <= i <= j ==> levels[i] == init[i];
          assert FirstWithPath(levels, j);
          assert d[k] == kept[k] == levels[j];
        } else {
          assert Dedup(levels)[k] == last;
          assert forall i :: 0 <= i < |init| ==> levels[i] == init[i];
          assert last.path !in Paths(init);
          assert FirstWithPath(levels, |levels| - 1);
          assert d[k] == levels[|levels| - 1];
        }
      }
    } else {
      assert Dedup(levels) == [];
    }
  }

  /** The level list the scan accumulates after visiting `paks` in order. */
  function AllLevels(paks: seq<Pak>): (r: Result<seq<Level>, ScanError>)
  {
    if paks == [] then Ok([])
    else
      var pak := paks[|paks| - 1];
      match AllLevels(paks[..|paks| - 1])
      case Err(e) => Err(e)
      case Ok(before) =>
        if !pak.Layouts? then Ok(before)
        else match ScenesOf(pak.data)
          case Err(e) => Err(e)
          case Ok(scenes) =>
            match SceneLevels(scenes)
            case Err(e) => Err(e)
            case Ok(levels) => Ok(before + levels)
  }

  lemma {:induction false} DedupAppend(before: seq<Level>, x: Level)
    ensures Dedup(before + [x]) == if x.path in Paths(Dedup(before)) then Dedup(before) else Dedup(before) + [x]
  {
    assert (before + [x])[..|before|] == before;
  }

  /**
   * `discover_levels_from_cache`: visit the archives (already in sorted order)
   * and keep the first level seen for each path. A missing cache folder
   * yields nothing.
   */
  method DiscoverLevels(cacheExists: bool, paks: seq<Pak>) returns (r: Result<seq<Level>, ScanError>)
    ensures !cacheExists ==> r == Ok([])
    ensures cacheExists ==> r == (match AllLevels(paks) case Err(e) => Err(e) case Ok(all) => Ok(Dedup(all)))
  {
    if !cacheExists {
      return Ok([]);
    }
    var discovered: seq<Level> := [];
    var seen: set<string> := {};
    ghost var all: seq<Level> := [];
    for p := 0 to |paks|
      invariant AllLevels(paks[..p]) == Ok(all)
      invariant discovered == Dedup(all) && seen == Paths(discovered)
    {
      assert paks[..p + 1][..p] == paks[..p];
      var scenes := ReadSceneLayouts(paks[p]);
      if scenes.Err? {
        assert AllLevels(paks[..p + 1]).Err?;
        AllLevelsErrSticks(paks, p + 1);
        assert paks[..|paks|] == paks;
        return Err(scenes.error);
      }
      var levels := scenes.value;
      assert paks[..p + 1][p] == paks[p];
      if !paks[p].Layouts? {
        assert all + levels == all;
      }
      assert AllLevels(paks[..p + 1]) == Ok(all + levels);
      discovered, seen := KeepUnseen(discovered, seen, levels, all);
      all := all + levels;
    }
    assert paks[..|paks|] == paks;
    return Ok(discovered);
  }

  /** One more level of the scan is kept exactly when its path is new. */
  lemma KeepStep(all: seq<Level>, levels: seq<Level>, i: nat)
    requires i < |levels|
    ensures var before := Dedup(all + levels[..i]);
      Dedup(all + levels[..i + 1]) == if levels[i].path in Paths(before) then before else before + [levels[i]]
  {
    assert levels[..i + 1] == levels[..i] + [levels[i]];
    assert all + levels[..i + 1] == (all + levels[..i]) + [levels[i]];
    DedupAppend(all + levels[..i], levels[i]);
  }

  /** The inner loop of the scan: append each level whose path was not seen yet. */
  method KeepUnseen(discovered: seq<Level>, seen: set<string>, levels: seq<Level>, ghost all: seq<Level>)
    returns (discovered': seq<Level>, seen': set<string>)
    requires discovered == Dedup(all) && seen == Paths(discovered)
    ensures discovered' == Dedup(all + levels) && seen' == Paths(discovered')
  {
    discovered', seen' := discovered, seen;
    assert levels[..0] == [] && all + [] == all;
    for i := 0 to |levels|
      invariant discovered' == Dedup(all + levels[..i]) && seen' == Paths(discovered')
    {
      var scene := levels[i];
      KeepStep(all, levels, i);
      if scene.path in seen' {
        continue;
      }
      PathsAppend(discovered', scene);
      seen' := seen' + {scene.path};
      discovered' := discovered' + [scene];
    }
    assert levels[..|levels|] == levels;
  }

  /** Once the scan has failed, later archives do not matter. */
  lemma {:induction false} AllLevelsErrSticks(paks: seq<Pak>, n: nat)
    requires n <= |paks| && AllLevels(paks[..n]).Err?
    ensures AllLevels(paks).Err? && AllLevels(paks).error == AllLevels(paks[..n]).error
    decreases |paks| - n
  {
    if n < |paks| {
      assert paks[..n + 1][..n] == paks[..n];
      AllLevelsErrSticks(paks, n + 1);
    } else {
      assert paks[..n] == paks;
    }
  }
}
