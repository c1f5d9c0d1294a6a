/**
 * The decision whether the companion Python project must be (re)installed,
 * the search for its project root, and the install state recorded after an
 * installation. Filesystem probes, the clock-free environment facts and the
 * installed orca-lab version are parameters.
 */
module ProjectInstaller {
  import opened Wrappers
  import opened Text
  import opened Json

  datatype InstallError = FileNotFoundError | ValueError | NotADirectoryError

  /**
   * The two `[orcalab]` settings as `str(value or "")` renders them;
   * the model strips them as the installer does.
   */
  datatype Settings = Settings(pythonProjectPath: string, pythonProjectUrl: string)

  function LocalPath(s: Settings): string { Strip(s.pythonProjectPath) }
  function DownloadUrl(s: Settings): string { Strip(s.pythonProjectUrl) }

  /**
   * `_is_installation_needed`. `resolvedPath` is the local path after
   * `expanduser().resolve()`; `destExists` and `rootFound` are the probes of
   * the user-mode install directory, consulted only in user mode.
   */
  function IsInstallationNeeded(state: map<string, Json>, settings: Settings, currentVersion: string,
                                resolvedPath: string, destExists: bool, rootFound: bool): bool
  {
    if LocalPath(settings) != [] then
      Get(state, "installed_path", JNull) != JStr(resolvedPath)
    else if DownloadUrl(settings) != [] then
      if Get(state, "installed_version", JNull) != JStr(currentVersion) then true
      else if Get(state, "installed_url", JNull) != JStr(DownloadUrl(settings)) then true
      else if !destExists then true
      else if !rootFound then true
      else false
    else true
  }

  /**
   * The decision in one statement: developer mode compares the recorded
   * path only; user mode reinstalls on any of a version change, a URL
   * change, a missing directory or a missing project; with neither setting
   * an install is always needed.
   */
  lemma IsInstallationNeededCases(state: map<string, Json>, settings: Settings, currentVersion: string,
                                  resolvedPath: string, destExists: bool, rootFound: bool)
    ensures LocalPath(settings) != [] ==>
      (IsInstallationNeeded(state, settings, currentVersion, resolvedPath, destExists, rootFound) <==>
         ("installed_path" !in state || state["installed_path"] != JStr(resolvedPath)))
    ensures LocalPath(settings) == [] && DownloadUrl(settings) != [] ==>
      (IsInstallationNeeded(state, settings, currentVersion, resolvedPath, destExists, rootFound) <==>
         (Get(state, "installed_version", JNull) != JStr(currentVersion)
          || Get(state, "installed_url", JNull) != JStr(DownloadUrl(settings))
          || !destExists || !rootFound))
    ensures LocalPath(settings) == [] && DownloadUrl(settings) == [] ==>
      IsInstallationNeeded(state, settings, currentVersion, resolvedPath, destExists, rootFound)
  {
  }

  /** A directory as the installer probes it. */
  datatype Dir = Dir(path: string, isDir: bool, hasPyproject: bool, hasSetupPy: bool, entries: seq<Dir>)

  predicate HasProjectFile(d: Dir) { d.hasPyproject || d.hasSetupPy }

  /** The directory itself, then its sole entry when that entry is a directory. */
  function Candidates(d: Dir): seq<Dir> {
    [d] + if |d.entries| == 1 && d.entries[0].isDir then [d.entries[0]] else []
  }

  /** Some candidate of the directory holds a project file, so `_find_editable_root` finds a root. */
  predicate HoldsProject(d: Dir) {
    exists c :: c in Candidates(d) && HasProjectFile(c)
  }

  /**
   * `_find_editable_root`: listing the directory fails when it is not one;
   * otherwise the first candidate holding `pyproject.toml` or `setup.py`.
   */
  method FindEditableRoot(extracted: Dir) returns (r: Result<Option<string>, InstallError>)
    ensures !extracted.isDir ==> r == Err(NotADirectoryError)
    ensures extracted.isDir ==> r.Ok?
    ensures extracted.isDir && HasProjectFile(extracted) ==> r == Ok(Some(extracted.path))
    ensures extracted.isDir && !HasProjectFile(extracted) && |extracted.entries| == 1 && extracted.entries[0].isDir ==>
      (HasProjectFile(extracted.entries[0]) ==> r == Ok(Some(extracted.entries[0].path)))
    ensures r.Ok? ==> (r.value.None? <==> forall c :: c in Candidates(extracted) ==> !HasProjectFile(c))
    ensures r.Ok? ==> (r.value.Some? <==> HoldsProject(extracted))
  {
    if !extracted.isDir {
      return Err(NotADirectoryError);
    }
    var candidates := Candidates(extracted);
    assert candidates[0] == extracted;
    assert |extracted.entries| == 1 && extracted.entries[0].isDir ==>
      |candidates| == 2 && candidates[1] == extracted.entries[0];
    for k := 0 to |candidates|
      invariant forall j :: 0 <= j < k ==> !HasProjectFile(candidates[j])
    {
      if HasProjectFile(candidates[k]) {
        return Ok(Some(candidates[k].path));
      }
    }
    r := Ok(None);
  }

  /**
   * The state written after an installation: developer mode records the
   * resolved path and no URL, user mode the URL and no path; both record the
   * working directory and the orca-lab version.
   */
  function StateUpdate(settings: Settings, resolvedPath: string, candidateExists: bool,
                       currentVersion: string, cwd: string): Result<map<string, Json>, InstallError>
  {
    if LocalPath(settings) != [] then
      if !candidateExists then Err(FileNotFoundError)
      else Ok(map["installed_path" := JStr(resolvedPath), "installed_url" := JNull,
                  "installed_at" := JStr(cwd), "installed_version" := JStr(currentVersion)])
    else if DownloadUrl(settings) == [] then Err(ValueError)
    else Ok(map["installed_url" := JStr(DownloadUrl(settings)), "installed_path" := JNull,
                "installed_at" := JStr(cwd), "installed_version" := JStr(currentVersion)])
  }

  /** The four keys of the installation state differ in the letter after "installed_". */
  lemma StateKeysDistinct()
    ensures "installed_path" != "installed_url" && "installed_path" != "installed_at"
    ensures "installed_path" != "installed_version" && "installed_url" != "installed_at"
    ensures "installed_url" != "installed_version" && "installed_at" != "installed_version"
  {
    assert "installed_path"[10] == 'p' && "installed_url"[10] == 'u';
    assert "installed_at"[10] == 'a' && "installed_version"[10] == 'v';
  }

  /**
   * After an installation, the recorded state makes the next check with the
   * same settings and version report "up to date" in developer mode, and in
   * user mode exactly when the install directory still holds a project.
   */
  lemma RecordedStateIsCurrent(settings: Settings, resolvedPath: string, currentVersion: string, cwd: string,
                               destExists: bool, rootFound: bool)
    requires StateUpdate(settings, resolvedPath, true, currentVersion, cwd).Ok?
    ensures var st := StateUpdate(settings, resolvedPath, true, currentVersion, cwd).value;
      LocalPath(settings) != [] ==> !IsInstallationNeeded(st, settings, currentVersion, resolvedPath, destExists, rootFound)
    ensures var st := StateUpdate(settings, resolvedPath, true, currentVersion, cwd).value;
      LocalPath(settings) == [] ==>
        (IsInstallationNeeded(st, settings, currentVersion, resolvedPath, destExists, rootFound) <==> !(destExists && rootFound))
  {
    var st := StateUpdate(settings, resolvedPath, true, currentVersion, cwd).value;
    StateKeysDistinct();
    if LocalPath(settings) != [] {
      assert Get(st, "installed_path", JNull) == JStr(resolvedPath);
    } else {
      assert Get(st, "installed_version", JNull) == JStr(currentVersion);
      assert Get(st, "installed_url", JNull) == JStr(DownloadUrl(settings));
    }
  }

  datatype InstallOutcome =
    | UpToDate
    | Installed(editableRoot: string, state: map<string, Json>)
    | Failed(error: InstallError)

  /**
   * The install check lists the user-mode install directory only after the
   * recorded version and URL match and the directory exists; listing a path
   * that is not a directory raises.
   */
  predicate ProbeRaises(state: map<string, Json>, settings: Settings, currentVersion: string,
                        destExists: bool, dest: Dir)
  {
    LocalPath(settings) == [] && DownloadUrl(settings) != []
    && Get(state, "installed_version", JNull) == JStr(currentVersion)
    && Get(state, "installed_url", JNull) == JStr(DownloadUrl(settings))
    && destExists && !dest.isDir
  }

  /**
   * `_is_installation_needed` with its probe of the install directory: the
   * decision `IsInstallationNeeded`, or the error the probe raises.
   */
  method InstallCheck(state: map<string, Json>, settings: Settings, currentVersion: string,
                      resolvedPath: string, destExists: bool, dest: Dir)
    returns (r: Result<bool, InstallError>)
    ensures ProbeRaises(state, settings, currentVersion, destExists, dest) ==> r == Err(NotADirectoryError)
    ensures !ProbeRaises(state, settings, currentVersion, destExists, dest) ==>
      r == Ok(IsInstallationNeeded(state, settings, currentVersion, resolvedPath, destExists, HoldsProject(dest)))
  {
    var rootFound := false;
    if LocalPath(settings) == [] && DownloadUrl(settings) != []
       && Get(state, "installed_version", JNull) == JStr(currentVersion)
       && Get(state, "installed_url", JNull) == JStr(DownloadUrl(settings)) && destExists
    {
      var found := FindEditableRoot(dest);
      if found.Err? {
        return Err(found.error);
      }
      rootFound := found.value.Some?;
    }
    r := Ok(IsInstallationNeeded(state, settings, currentVersion, resolvedPath, destExists, rootFound));
  }

  /**
   * `ensure_python_project_installed`. `candidateExists` says whether the
   * resolved developer path exists, `dest` is the user-mode install
   * directory as probed before the install check (`destExists` says whether it
   * exists), and `foundAfterExtract` the project root found there after
   * download and extraction. Downloading, extracting and `pip install` are
   * not modelled.
   */
  method EnsureInstalled(state: map<string, Json>, settings: Settings, currentVersion: string,
                         resolvedPath: string, candidateExists: bool, destExists: bool, dest: Dir,
                         foundAfterExtract: Option<string>, cwd: string)
    returns (outcome: InstallOutcome)
    ensures ProbeRaises(state, settings, currentVersion, destExists, dest) ==>
      outcome == Failed(NotADirectoryError)
    ensures (!ProbeRaises(state, settings, currentVersion, destExists, dest) &&
             !IsInstallationNeeded(state, settings, currentVersion, resolvedPath, destExists, HoldsProject(dest))) ==>
      outcome == UpToDate
    ensures (!ProbeRaises(state, settings, currentVersion, destExists, dest) &&
             IsInstallationNeeded(state, settings, currentVersion, resolvedPath, destExists, HoldsProject(dest))) ==>
      match StateUpdate(settings, resolvedPath, candidateExists, currentVersion, cwd)
      case Err(e) => outcome == Failed(e)
      case Ok(st) =>
        outcome.Installed? && outcome.state == st &&
        outcome.editableRoot == (if LocalPath(settings) != [] then resolvedPath
                                 else if foundAfterExtract.Some? then foundAfterExtract.value else dest.path)
  {
    var needed := InstallCheck(state, settings, currentVersion, resolvedPath, destExists, dest);
    if needed.Err? {
      return Failed(needed.error);
    }
    if !needed.value {
      return UpToDate;
    }
    var localPath := LocalPath(settings);
    var downloadUrl := DownloadUrl(settings);
    var editableRoot: string;
    var stateUpdate: map<string, Json> := map[];
    if localPath != [] {
      if !candidateExists {
        return Failed(FileNotFoundError);
      }
      editableRoot := resolvedPath;
      stateUpdate := stateUpdate["installed_path" := JStr(resolvedPath)];
      stateUpdate := stateUpdate["installed_url" := JNull];
    } else {
      if downloadUrl == [] {
        return Failed(ValueError);
      }
      stateUpdate := stateUpdate["installed_url" := JStr(downloadUrl)];
      stateUpdate := stateUpdate["installed_path" := JNull];
      editableRoot := if foundAfterExtract.Some? then foundAfterExtract.value else dest.path;
    }
    stateUpdate := stateUpdate["installed_at" := JStr(cwd)];
    stateUpdate := stateUpdate["installed_version" := JStr(currentVersion)];
    outcome := Installed(editableRoot, stateUpdate);
  }
}
