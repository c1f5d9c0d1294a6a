/**
 * The copilot service's data handling: the normalised server URL, the
 * asset list handed to the editor, the first generated asset's name and the
 * progress text shown while a scene is being generated.
 */
module CopilotService {
  import opened Wrappers
  import opened Text
  import opened Json

  /** The exception raised when scene data has an unexpected shape. */
  datatype DataError = AttributeError | TypeError | KeyError

  const DefaultServerUrl: string := "http://103.237.28.246:9023"
  const DefaultTimeout: int := 180

  /** `url.rstrip('/')` */
  function NormalizeServerUrl(url: string): (r: string)
    ensures r == [] || r[|r| - 1] != '/'
    ensures |r| <= |url| && r == url[..|r|]
  {
    RStripChar(url, '/')
  }

  /** Normalising is idempotent, and trailing slashes make no difference. */
  lemma {:induction false} NormalizeServerUrlStable(url: string, n: nat)
    ensures NormalizeServerUrl(NormalizeServerUrl(url)) == NormalizeServerUrl(url)
    ensures NormalizeServerUrl(url + Repeat('/', n)) == NormalizeServerUrl(url)
    decreases n
  {
    if n > 0 {
      var longer := url + Repeat('/', n);
      assert longer[..|longer| - 1] == url + Repeat('/', n - 1);
      NormalizeServerUrlStable(url, n - 1);
    } else {
      assert url + Repeat('/', 0) == url;
    }
  }

  class Service {
    var serverUrl: string
    var timeout: int

    constructor (serverUrl: string, timeout: int)
      ensures this.serverUrl == NormalizeServerUrl(serverUrl) && this.timeout == timeout
    {
      this.serverUrl := NormalizeServerUrl(serverUrl);
      this.timeout := timeout;
    }

    method SetServerUrl(serverUrl: string)
      modifies this
      ensures this.serverUrl == NormalizeServerUrl(serverUrl) && timeout == old(timeout)
    {
      this.serverUrl := NormalizeServerUrl(serverUrl);
    }
  }

  /** `f"asset_{uuid.replace('-', '_')}_usda"` */
  function SpawnableName(uuid: string): (r: string)
    ensures |r| == |uuid| + 11
    ensures StartsWith(r, "asset_") && EndsWith(r, "_usda")
    ensures forall i :: 0 <= i < |uuid| ==> r[6 + i] == (if uuid[i] == '-' then '_' else uuid[i])
    ensures '-' in uuid ==> r != "asset_" + uuid + "_usda"
  {
    "asset_" + ReplaceChar(uuid, '-', '_') + "_usda"
  }

  /** The editor-side description of one generated asset. */
  datatype AssetInfo = AssetInfo(
    spawnableName: string, name: Json, position: Json, rotation: Json, scale: Json, uuid: string)

  /** The description of one entry of `scene_data["assets"]`. */
  function AssetInfoOf(asset: Json): Result<AssetInfo, DataError> {
    if !asset.JDict? then Err(AttributeError)
    else
      var uuid := Get(asset.fields, "uuid", JStr("unknown"));
      if !uuid.JStr? then Err(AttributeError)
      else Ok(AssetInfo(
        SpawnableName(uuid.s),
        Get(asset.fields, "name", JStr("asset")),
        Get(asset.fields, "position", JDict(map[])),
        Get(asset.fields, "rotation", JDict(map[])),
        Get(asset.fields, "scale", JDict(map[])),
        uuid.s))
  }

  /**
   * The assets of the generated scene for the editor's add-item API: one
   * entry per input asset, in order; none when `"assets"` is missing or empty.
   */
  method GetSceneAssetsForOrcaLab(sceneData: map<string, Json>) returns (r: Result<seq<AssetInfo>, DataError>)
    ensures !Truthy(Get(sceneData, "assets", JNull)) ==> r == Ok([])
    ensures Truthy(Get(sceneData, "assets", JNull)) && !sceneData["assets"].JList? ==>
      r == (if sceneData["assets"].JStr? || sceneData["assets"].JDict? then Err(AttributeError) else Err(TypeError))
    ensures r.Ok? && "assets" in sceneData && sceneData["assets"].JList? ==>
      var items := sceneData["assets"].items;
      |r.value| == |items| && forall k :: 0 <= k < |items| ==> AssetInfoOf(items[k]) == Ok(r.value[k])
    ensures "assets" in sceneData && sceneData["assets"].JList? ==>
      (r.Ok? <==> forall k :: 0 <= k < |sceneData["assets"].items| ==> AssetInfoOf(sceneData["assets"].items[k]).Ok?)
    ensures r.Err? && "assets" in sceneData && sceneData["assets"].JList? ==>
      var items := sceneData["assets"].items;
      exists k :: 0 <= k < |items| && AssetInfoOf(items[k]) == Err(r.error)
        && forall j :: 0 <= j < k ==> AssetInfoOf(items[j]).Ok?
  {
    var assets: seq<AssetInfo> := [];
    var data := Get(sceneData, "assets", JNull);
    if Truthy(data) {
      if !data.JList? {
        // iterating a string or an object yields strings, which have no `get`;
        // a number or a boolean is not iterable
        return if data.JStr? || data.JDict? then Err(AttributeError) else Err(TypeError);
      }
      var items := data.items;
      for k := 0 to |items|
        invariant |assets| == k
        invariant forall j :: 0 <= j < k ==> AssetInfoOf(items[j]) == Ok(assets[j])
      {
        var info := AssetInfoOf(items[k]);
        if info.Err? {
          return Err(info.error);
        }
        assets := assets + [info.value];
      }
    }
    r := Ok(assets);
  }

  /**
   * The spawnable name returned by `generate_asset_from_prompt`: the first
   * asset's `name` (default `''`), or `None` when the scene has no assets.
   */
  function FirstAssetName(sceneData: map<string, Json>): (r: Result<Option<Json>, DataError>)
    ensures !Truthy(Get(sceneData, "assets", JNull)) ==> r == Ok(None)
    ensures r.Ok? && r.value.Some? ==>
      "assets" in sceneData && sceneData["assets"].JList? && sceneData["assets"].items != []
      && sceneData["assets"].items[0].JDict?
      && r.value.value == Get(sceneData["assets"].items[0].fields, "name", JStr(""))
    ensures Truthy(Get(sceneData, "assets", JNull)) && sceneData["assets"].JList? && sceneData["assets"].items[0].JDict? ==>
      r == Ok(Some(Get(sceneData["assets"].items[0].fields, "name", JStr(""))))
  {
    var data := Get(sceneData, "assets", JNull);
    if !Truthy(data) then Ok(None)
    else if data.JList? then
      if data.items[0].JDict? then Ok(Some(Get(data.items[0].fields, "name", JStr(""))))
      else Err(AttributeError)
    else if data.JStr? then Err(AttributeError)
    else if data.JDict? then Err(KeyError)
    else Err(TypeError)
  }

  /** The progress text after `dotCount` ticks: zero to three dots, cycling. */
  function ProgressMessage(dotCount: nat): (r: string)
    ensures |r| == |"Generating scene"| + dotCount % 4
  {
    "Generating scene" + Repeat('.', dotCount % 4)
  }

  /** The progress texts reported over `ticks` two-second ticks, until the asyncio task is cancelled. */
  method ShowProgressDots(ticks: nat) returns (messages: seq<string>)
    ensures |messages| == ticks
    ensures forall k :: 0 <= k < ticks ==> messages[k] == ProgressMessage(k + 1)
  {
    var dotCount := 0;
    messages := [];
    while dotCount < ticks
      invariant 0 <= dotCount <= ticks
      invariant |messages| == dotCount
      invariant forall k :: 0 <= k < dotCount ==> messages[k] == ProgressMessage(k + 1)
    {
      dotCount := dotCount + 1;
      messages := messages + [ProgressMessage(dotCount)];
    }
  }

  /** The progress text repeats every four ticks and never shows more than three dots. */
  lemma ProgressCycles(dotCount: nat)
    ensures ProgressMessage(dotCount + 4) == ProgressMessage(dotCount)
    ensures |ProgressMessage(dotCount)| <= |"Generating scene"| + 3
  {
  }
}
