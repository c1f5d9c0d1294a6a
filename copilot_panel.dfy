/**
 * The copilot panel's submit path: the typed text is stripped, matched
 * case-insensitively against the available asset names, and the chosen
 * asset is sent to the editor's add-item slot.
 */
module CopilotPanel {
  import opened Wrappers
  import opened Text

  /** `needle.lower() in asset.lower()` */
  predicate Matches(needle: string, asset: string) {
    Contains(Lower(asset), Lower(needle))
  }

  /** `[asset for asset in assets if needle.lower() in asset.lower()]` */
  function Candidates(needle: string, assets: seq<string>): (r: seq<string>)
    ensures forall a :: a in r <==> a in assets && Matches(needle, a)
    decreases |assets|
  {
    if assets == [] then []
    else (if Matches(needle, assets[0]) then [assets[0]] else []) + Candidates(needle, assets[1..])
  }

  /** `next((asset for asset in assets if asset.lower() == needle.lower()), None)` */
  function FirstExact(needle: string, assets: seq<string>): (r: Option<nat>)
    ensures r.Some? ==>
      r.value < |assets| && Lower(assets[r.value]) == Lower(needle)
      && forall j :: 0 <= j < r.value ==> Lower(assets[j]) != Lower(needle)
    ensures r.None? ==> forall j :: 0 <= j < |assets| ==> Lower(assets[j]) != Lower(needle)
    decreases |assets|
  {
    if assets == [] then None
    else if Lower(assets[0]) == Lower(needle) then Some(0)
    else match FirstExact(needle, assets[1..])
      case None => None
      case Some(k) => Some(k + 1)
  }

  /**
   * The asset chosen for `needle`: the first exact case-insensitive match
   * when there is one (and it is not the empty name), otherwise the first
   * candidate; `None` when nothing matches.
   */
  function SelectAsset(needle: string, assets: seq<string>): Option<string> {
    var matching := Candidates(needle, assets);
    if matching == [] then None
    else
      var exact := FirstExact(needle, assets);
      if exact.Some? && assets[exact.value] != [] then Some(assets[exact.value]) else Some(matching[0])
  }

  lemma LowerPreservesEquality(a: string, b: string)
    requires Lower(a) == Lower(b)
    ensures Contains(Lower(a), Lower(b))
  {
    assert StartsWith(Lower(a), Lower(b));
  }

  /**
   * The selection is an available asset containing the text; an exact
   * match is preferred and otherwise the first candidate in asset order is
   * chosen; nothing is chosen exactly when no asset contains the text.
   */
  lemma {:induction false} SelectAssetSpec(needle: string, assets: seq<string>)
    ensures SelectAsset(needle, assets).None? <==> forall a :: a in assets ==> !Matches(needle, a)
    ensures SelectAsset(needle, assets).Some? ==>
      var s := SelectAsset(needle, assets).value;
      s in assets && Matches(needle, s)
    ensures needle != [] && FirstExact(needle, assets).Some? ==>
      SelectAsset(needle, assets) == Some(assets[FirstExact(needle, assets).value])
    ensures FirstExact(needle, assets).None? && Candidates(needle, assets) != [] ==>
      SelectAsset(needle, assets) == Some(Candidates(needle, assets)[0])
  {
    var matching := Candidates(needle, assets);
    var exact := FirstExact(needle, assets);
    if exact.Some? {
      var a := assets[exact.value];
      LowerPreservesEquality(a, needle);
      assert a in matching;
      if needle != [] {
        assert |Lower(a)| == |Lower(needle)| > 0;
      }
    }
    if matching != [] {
      assert matching[0] in matching;
    }
  }

  class Panel {
    var inputText: string
    var submitEnabled: bool
    /** Asset names sent through `add_item(name, None)`, oldest first. */
    var addItemEmitted: seq<string>

    constructor ()
      ensures inputText == [] && submitEnabled && addItemEmitted == []
    {
      inputText := [];
      submitEnabled := true;
      addItemEmitted := [];
    }

    /**
     * `_handle_asset_creation`: `assets` is what the remote scene returned,
     * or `None` when that call raised; `remoteAvailable` is false when the
     * panel has no remote scene. Returns the asset names listed in the log
     * when nothing matched.
     */
    method HandleAssetCreation(spawnableName: string, remoteAvailable: bool, assets: Option<seq<string>>)
      returns (listed: seq<string>)
      modifies this
      ensures submitEnabled
      ensures var selected := if remoteAvailable && assets.Some? then SelectAsset(spawnableName, assets.value) else None;
        (selected.Some? ==> addItemEmitted == old(addItemEmitted) + [selected.value] && inputText == [])
        && (selected.None? ==> addItemEmitted == old(addItemEmitted) && inputText == old(inputText))
      ensures remoteAvailable && assets.Some? && SelectAsset(spawnableName, assets.value).None? ==>
        listed == assets.value[..if |assets.value| < 10 then |assets.value| else 10]
      ensures |listed| <= 10
    {
      listed := [];
      submitEnabled := false;
      if !remoteAvailable {
        submitEnabled := true;
        return;
      }
      if assets.None? {
        submitEnabled := true;
        return;
      }
      var all := assets.value;
      var matching := Candidates(spawnableName, all);
      if matching == [] {
        listed := all[..if |all| < 10 then |all| else 10];
        submitEnabled := true;
        return;
      }
      var exact := FirstExact(spawnableName, all);
      var selected := if exact.Some? && all[exact.value] != [] then all[exact.value] else matching[0];
      addItemEmitted := addItemEmitted + [selected];
      inputText := [];
      submitEnabled := true;
    }

    /** `_on_submit_clicked`: the stripped text, when not empty, starts the handling. */
    method OnSubmitClicked(remoteAvailable: bool, assets: Option<seq<string>>)
      modifies this
      ensures Strip(old(inputText)) == [] ==>
        inputText == old(inputText) && addItemEmitted == old(addItemEmitted) && submitEnabled == old(submitEnabled)
      ensures Strip(old(inputText)) != [] ==>
        submitEnabled &&
        var selected := if remoteAvailable && assets.Some? then SelectAsset(Strip(old(inputText)), assets.value) else None;
        addItemEmitted == old(addItemEmitted) + (if selected.Some? then [selected.value] else [])
        && inputText == (if selected.Some? then [] else old(inputText))
    {
      var text := Strip(inputText);
      if text != [] {
        var _ := HandleAssetCreation(text, remoteAvailable, assets);
      }
    }
  }
}
