/** The model settings screen: the endpoint and key cells, the preset list and
    the detection that keeps the preset selector in step with the endpoint. */
module Settings {
  import opened Wrappers

  const EndpointKey := "smartlex_doubao_endpoint"
  const LegacyEndpointKey := "smartlex_model_endpoint"
  const ApiKeyKey := "smartlex_api_key"
  const ProviderKey := "smartlex_provider"
  const CustomId := "doubao-custom"

  datatype Preset = Preset(id: string, name: string, endpoint: string, provider: string)

  /** `DOUBAO_OPTIONS`. */
  const Presets: seq<Preset> := [
    Preset(CustomId, "自定义配置 (Custom Endpoint)", "", "doubao"),
    Preset("doubao-1.8", "Doubao 1.8 Pro (Latest)", "doubao-seed-1-8-251228", "doubao"),
    Preset("doubao-1.6-flash", "Doubao 1.6 Flash (Multimodal)", "doubao-seed-1-6-flash-250828", "doubao"),
    Preset("doubao-1.6-lite", "Doubao 1.6 Lite (Fastest)", "doubao-seed-1-6-lite-251015", "doubao")
  ]

  /** `localStorage.getItem(key) || fallback`: an absent or empty value falls through. */
  function StoredOr(prefs: map<string, string>, key: string, fallback: string): (r: string)
    ensures key in prefs && prefs[key] != "" ==> r == prefs[key]
    ensures !(key in prefs && prefs[key] != "") ==> r == fallback
  {
    if key in prefs && prefs[key] != "" then prefs[key] else fallback
  }

  /** The endpoint the screen opens with. */
  function InitialEndpoint(prefs: map<string, string>): (r: string)
    ensures EndpointKey in prefs && prefs[EndpointKey] != "" ==> r == prefs[EndpointKey]
    ensures !(EndpointKey in prefs && prefs[EndpointKey] != "") && LegacyEndpointKey in prefs ==>
              r == prefs[LegacyEndpointKey]
    ensures r == "" || (EndpointKey in prefs && r == prefs[EndpointKey]) ||
            (LegacyEndpointKey in prefs && r == prefs[LegacyEndpointKey])
  {
    StoredOr(prefs, EndpointKey, StoredOr(prefs, LegacyEndpointKey, ""))
  }

  /** `options.find(opt => opt.id !== 'doubao-custom' && opt.endpoint === endpoint)`. */
  function FindByEndpoint(options: seq<Preset>, endpoint: string): (r: Option<Preset>)
    ensures r.Some? ==> r.value in options && r.value.id != CustomId && r.value.endpoint == endpoint
    ensures r.None? ==> forall p :: p in options && p.id != CustomId ==> p.endpoint != endpoint
  {
    if options == [] then None
    else if options[0].id != CustomId && options[0].endpoint == endpoint then Some(options[0])
    else FindByEndpoint(options[1..], endpoint)
  }

  /** `options.find(p => p.id === id)`. */
  function FindById(options: seq<Preset>, id: string): (r: Option<Preset>)
    ensures r.Some? ==> r.value in options && r.value.id == id
    ensures r.None? ==> forall p :: p in options ==> p.id != id
  {
    if options == [] then None
    else if options[0].id == id then Some(options[0])
    else FindById(options[1..], id)
  }

  /** The detection effect: the id of the non-custom preset with this endpoint,
      or the custom id. */
  function DetectPreset(endpoint: string): (id: string)
    ensures id == CustomId || exists p :: p in Presets && p.id == id && p.endpoint == endpoint
  {
    match FindByEndpoint(Presets, endpoint)
    case Some(p) => p.id
    case None => CustomId
  }

  /** The detection names a preset exactly when the endpoint is one of the preset
      endpoints; an empty endpoint, and any other text, is custom. */
  lemma DetectPresetCases(endpoint: string)
    ensures DetectPreset(endpoint) == CustomId <==>
            forall p :: p in Presets && p.id != CustomId ==> p.endpoint != endpoint
    ensures endpoint == "" ==> DetectPreset(endpoint) == CustomId
  {
    if endpoint == "" {
      assert forall p :: p in Presets && p.id != CustomId ==> p.endpoint != "";
    }
  }

  /** The preset endpoints are told apart: each one detects its own preset. */
  lemma DetectEachPreset(k: nat)
    requires 1 <= k < |Presets|
    ensures DetectPreset(Presets[k].endpoint) == Presets[k].id
  {
    var rest := Presets[1..];
    assert rest[1..][1..] == [Presets[3]];
  }

  /** Choosing a preset and detecting from its endpoint gives the same preset back. */
  lemma ChoosingPresetIsDetected(id: string)
    requires FindById(Presets, id).Some? && id != CustomId
    ensures DetectPreset(FindById(Presets, id).value.endpoint) == id
  {
    var k :| 0 <= k < |Presets| && Presets[k] == FindById(Presets, id).value;
    DetectEachPreset(k);
  }

  /** The screen's state cells and the preferences store they write (`localStorage`). */
  class SettingsPanel {
    var endpoint: string
    var apiKey: string
    var selectedPreset: string
    var prefs: map<string, string>

    /** First render followed by the mount run of the detection effect. */
    constructor(prefs: map<string, string>)
      ensures this.prefs == prefs
      ensures endpoint == InitialEndpoint(prefs)
      ensures apiKey == StoredOr(prefs, ApiKeyKey, "")
      ensures selectedPreset == DetectPreset(endpoint)
    {
      var initial := InitialEndpoint(prefs);
      this.prefs := prefs;
      endpoint := initial;
      apiKey := StoredOr(prefs, ApiKeyKey, "");
      selectedPreset := "custom";
      selectedPreset := DetectPreset(initial);
    }

    /** `updateDoubaoSettings`, followed by the detection effect when the endpoint
        changed. `toast` tells whether the confirmation is shown. */
    method UpdateDoubaoSettings(ep: string, key: string) returns (toast: bool)
      modifies this
      ensures endpoint == ep && apiKey == key
      ensures prefs == old(prefs)[EndpointKey := ep][ApiKeyKey := key][ProviderKey := "doubao"]
      ensures selectedPreset == if ep != old(endpoint) then DetectPreset(ep) else old(selectedPreset)
      ensures toast <==> ep != ""
    {
      var changed := ep != endpoint;
      endpoint := ep;
      apiKey := key;
      prefs := prefs[EndpointKey := ep];
      prefs := prefs[ApiKeyKey := key];
      prefs := prefs[ProviderKey := "doubao"];
      toast := ep != "";
      if changed {
        selectedPreset := DetectPreset(ep);
      }
    }

    /** `handlePresetChange`: a non-custom preset writes its endpoint with the
        current key; the custom one only changes the selector. */
    method HandlePresetChange(id: string) returns (toast: bool)
      modifies this
      ensures var preset := FindById(Presets, id);
              if preset.Some? && id != CustomId then
                endpoint == preset.value.endpoint && apiKey == old(apiKey) &&
                prefs == old(prefs)[EndpointKey := preset.value.endpoint][ApiKeyKey := old(apiKey)]
                                   [ProviderKey := "doubao"] &&
                selectedPreset == id && toast
              else
                endpoint == old(endpoint) && apiKey == old(apiKey) && prefs == old(prefs) &&
                selectedPreset == id && !toast
    {
      selectedPreset := id;
      var preset := FindById(Presets, id);
      toast := false;
      if preset.Some? && preset.value.id != CustomId {
        toast := UpdateDoubaoSettings(preset.value.endpoint, apiKey);
        ChoosingPresetIsDetected(id);
      }
    }
  }
}
