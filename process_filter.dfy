/**
 * The single-instance guard's test of whether a running process is another
 * OrcaLab editor (`_looks_like_orcalab_process`). Its callers pass the
 * process name, executable path and joined command line already lower-cased.
 */
module ProcessFilter {
  import opened Text

  const Needle: string := "orcalab"
  const PythonMarkers: seq<string> := ["python", "python3", "pypy"]
  const ModuleMarkers: seq<string> := ["-m orcalab", "orcalab/main", "orcalab/__main__", "orcalab.py"]

  /** `any(marker in text for marker in markers)` */
  predicate AnyMarker(markers: seq<string>, text: string) {
    exists k :: 0 <= k < |markers| && Contains(text, markers[k])
  }

  /** True when the process metadata suggests an OrcaLab instance. */
  function LooksLikeOrcaLabProcess(name: string, exe: string, cmdline: string): (r: bool)
    ensures r ==> Contains(name, Needle) || Contains(exe, Needle) || Contains(cmdline, Needle)
  {
    if Contains(name, Needle) || Contains(exe, Needle) then true
    else if !Contains(cmdline, Needle) then false
    else if AnyMarker(PythonMarkers, cmdline) then true
    else if AnyMarker(ModuleMarkers, cmdline) then true
    else false
  }

  lemma NeedleInModuleMarkers(k: nat)
    requires k < |ModuleMarkers|
    ensures Contains(ModuleMarkers[k], Needle)
  {
    if k == 0 { assert StartsWith(ModuleMarkers[0][3..], Needle); ContainsFromSuffix(ModuleMarkers[0], Needle, 3); }
    else if k == 1 { assert StartsWith(ModuleMarkers[1], Needle); }
    else if k == 2 { assert StartsWith(ModuleMarkers[2], Needle); }
    else { assert StartsWith(ModuleMarkers[3], Needle); }
  }

  /**
   * The name/exe test alone decides a match; otherwise a module marker
   * alone decides it, because every module marker mentions "orcalab";
   * a python marker needs "orcalab" elsewhere in the command line.
   */
  lemma {:induction false} LooksLikeOrcaLabProcessCases(name: string, exe: string, cmdline: string)
    ensures LooksLikeOrcaLabProcess(name, exe, cmdline) <==>
      Contains(name, Needle) || Contains(exe, Needle)
      || AnyMarker(ModuleMarkers, cmdline)
      || (Contains(cmdline, Needle) && AnyMarker(PythonMarkers, cmdline))
  {
    if AnyMarker(ModuleMarkers, cmdline) {
      var k :| 0 <= k < |ModuleMarkers| && Contains(cmdline, ModuleMarkers[k]);
      NeedleInModuleMarkers(k);
      ContainsTransitive(cmdline, ModuleMarkers[k], Needle);
    }
  }

  /** The "python3" marker is redundant: any command line containing it also contains "python". */
  lemma Python3MarkerRedundant(cmdline: string)
    requires Contains(cmdline, "python3")
    ensures Contains(cmdline, "python")
  {
    assert StartsWith("python3", "python");
    ContainsTransitive(cmdline, "python3", "python");
  }
}
