/**
 * The layered configuration: defaults, then the shared `orca.config.toml`,
 * then the user's `orca.config.user.toml`, combined by a recursive dict
 * merge. The TOML files arrive already parsed.
 */
module ConfigService {
  import opened Wrappers
  import opened Json

  /**
   * What `deep_merge(d1, d2)` leaves in `d1`: every key of either; where both
   * hold a dict the two are merged, otherwise `d2`'s value wins.
   */
  function Merge(d1: map<string, Json>, d2: map<string, Json>): (r: map<string, Json>)
    ensures r.Keys == d1.Keys + d2.Keys
    decreases JDict(d2)
  {
    map k | k in d1.Keys + d2.Keys ::
      if k !in d2 then d1[k]
      else if k in d1 && d1[k].JDict? && d2[k].JDict? then
        assert d2[k] < JDict(d2);
        JDict(Merge(d1[k].fields, d2[k].fields))
      else d2[k]
  }

  /** `deep_merge`: walk `d2`'s keys, recursing where both sides are dicts. */
  method DeepMerge(d1: map<string, Json>, d2: map<string, Json>) returns (r: map<string, Json>)
    ensures r == Merge(d1, d2)
    decreases JDict(d2)
  {
    r := d1;
    var todo := d2.Keys;
    while todo != {}
      invariant todo <= d2.Keys
      invariant r.Keys == d1.Keys + (d2.Keys - todo)
      invariant forall k :: k in r ==> r[k] == (if k in d2.Keys - todo then Merge(d1, d2)[k] else d1[k])
      decreases todo
    {
      var key :| key in todo;
      var value := d2[key];
      if key in r && r[key].JDict? && value.JDict? {
        assert value < JDict(d2);
        var merged := DeepMerge(r[key].fields, value.fields);
        r := r[key := JDict(merged)];
      } else {
        r := r[key := value];
      }
      todo := todo - {key};
    }
    assert r == Merge(d1, d2);
  }

  /** The value reached by indexing a dict with each key of `path` in turn. */
  function Lookup(d: map<string, Json>, path: seq<string>): (r: Option<Json>)
    requires path != []
    decreases |path|
  {
    if path[0] !in d then None
    else if |path| == 1 then Some(d[path[0]])
    else if d[path[0]].JDict? then Lookup(d[path[0]].fields, path[1..])
    else None
  }

  /**
   * Layering: a setting that the upper layer defines as anything but a table
   * comes out of the merge exactly as that layer gives it.
   */
  lemma {:induction false} UpperLayerWins(lower: map<string, Json>, upper: map<string, Json>, path: seq<string>)
    requires path != []
    requires Lookup(upper, path).Some? && !Lookup(upper, path).value.JDict?
    ensures Lookup(Merge(lower, upper), path) == Lookup(upper, path)
    decreases |path|
  {
    var k := path[0];
    if |path| > 1 {
      var m := Merge(lower, upper);
      if k in lower && lower[k].JDict? {
        assert m[k] == JDict(Merge(lower[k].fields, upper[k].fields));
        UpperLayerWins(lower[k].fields, upper[k].fields, path[1..]);
      }
    }
  }

  /** A section or setting the upper layer does not mention keeps what the lower layer gives it. */
  lemma LowerLayerShowsThrough(lower: map<string, Json>, upper: map<string, Json>, path: seq<string>)
    requires path != [] && path[0] !in upper
    ensures Lookup(Merge(lower, upper), path) == Lookup(lower, path)
  {
  }

  /** A key the upper layer holds as a table is merged key by key, not replaced. */
  lemma TablesAreMerged(lower: map<string, Json>, upper: map<string, Json>, k: string)
    requires k in lower && k in upper && lower[k].JDict? && upper[k].JDict?
    ensures Merge(lower, upper)[k] == JDict(Merge(lower[k].fields, upper[k].fields))
    ensures Merge(lower, upper)[k].fields.Keys == lower[k].fields.Keys + upper[k].fields.Keys
  {
  }

  /** Merging nothing changes nothing, and merging into nothing copies. */
  lemma {:induction false} MergeIdentity(d: map<string, Json>)
    ensures Merge(d, map[]) == d
    ensures Merge(map[], d) == d
  {
  }

  /** Merging a configuration with itself gives it back. */
  lemma {:induction false} MergeIdempotent(d: map<string, Json>)
    ensures Merge(d, d) == d
    decreases JDict(d)
  {
    forall k | k in d && d[k].JDict?
      ensures Merge(d[k].fields, d[k].fields) == d[k].fields
    {
      assert d[k] < JDict(d);
      MergeIdempotent(d[k].fields);
    }
  }

  /** `AttributeError` is reading `config` before `init_config` has set it. */
  datatype LookupError = KeyError | TypeError | AttributeError

  /** `config[a][b]`: a missing key is a `KeyError`, indexing a non-dict a `TypeError`. */
  function Setting(config: map<string, Json>, section: string, key: string): (r: Result<Json, LookupError>)
    ensures r.Ok? <==> Lookup(config, [section, key]).Some?
    ensures r.Ok? ==> Lookup(config, [section, key]) == Some(r.value)
  {
    if section !in config then Err(KeyError)
    else if !config[section].JDict? then Err(TypeError)
    else if key !in config[section].fields then Err(KeyError)
    else Ok(config[section].fields[key])
  }

  /** `os.path.join(folder, name)` for a relative `name`. */
  function PathJoin(folder: string, name: string): string {
    if folder == [] then name
    else if folder[|folder| - 1] == '/' then folder + name
    else folder + "/" + name
  }

  const ProjectFolderKey := "orca_project_folder"

  class Service {
    /** Whether `init_config` has run; before that the object has no `config`. */
    var initialised: bool
    var config: map<string, Json>
    var rootFolder: string
    var configPath: string
    var userConfigPath: string

    constructor ()
      ensures !initialised
      ensures config == map[] && rootFolder == [] && configPath == [] && userConfigPath == []
    {
      initialised := false;
      config := map[];
      rootFolder := [];
      configPath := [];
      userConfigPath := [];
    }

    /**
     * `init_config`: the project folder as the only default, then the shared
     * file, then the user file. `projectDir` is what the project lookup returns.
     */
    method InitConfig(root: string, projectDir: string, shared: map<string, Json>, user: map<string, Json>)
      modifies this
      ensures initialised
      ensures config == Merge(Merge(map[ProjectFolderKey := JStr(projectDir)], shared), user)
      ensures rootFolder == root
      ensures configPath == PathJoin(root, "orca.config.toml")
      ensures userConfigPath == PathJoin(root, "orca.config.user.toml")
    {
      config := map[];
      config := config[ProjectFolderKey := JStr(projectDir)];
      rootFolder := root;
      configPath := PathJoin(root, "orca.config.toml");
      userConfigPath := PathJoin(root, "orca.config.user.toml");
      config := DeepMerge(config, shared);
      config := DeepMerge(config, user);
      initialised := true;
    }

    /** `edit_port`, `sim_port`, `executable`, `attach`, `level`: a key of the `[orcalab]` table. */
    function OrcaLabSetting(key: string): (r: Result<Json, LookupError>)
      reads this
      ensures !initialised ==> r == Err(AttributeError)
      ensures initialised ==> r == Setting(config, "orcalab", key)
      ensures r.Ok? ==> "orcalab" in config && config["orcalab"].JDict? && key in config["orcalab"].fields && r.value == config["orcalab"].fields[key]
    {
      if !initialised then Err(AttributeError) else Setting(config, "orcalab", key)
    }
  }

  /** The user file's settings win over the shared file's, which win over the defaults. */
  lemma UserOverridesShared(projectDir: string, shared: map<string, Json>, user: map<string, Json>, path: seq<string>)
    requires path != []
    requires Lookup(user, path).Some? && !Lookup(user, path).value.JDict?
    ensures Lookup(Merge(Merge(map[ProjectFolderKey := JStr(projectDir)], shared), user), path) == Lookup(user, path)
  {
    UpperLayerWins(Merge(map[ProjectFolderKey := JStr(projectDir)], shared), user, path);
  }

  /** `ConfigService` as a class: one instance, made on first use. */
  class ServiceClass {
    var instance: Service?

    constructor ()
      ensures instance == null
    {
      instance := null;
    }

    /** `__new__`: every call after the first returns the same instance. */
    method Instance() returns (s: Service)
      modifies this
      ensures instance == s
      ensures old(instance) != null ==> s == old(instance)
      ensures old(instance) == null ==> fresh(s) && !s.initialised
    {
      if instance == null {
        instance := new Service();
      }
      s := instance;
    }
  }
}
