/** KV-cache facts of a model and the runtime configuration check
    (lmrs/configuration.py). */
module Configuration {
  import opened Outcomes

  datatype KVCacheProfile = KVCacheProfile(
    layers: int, kvHeads: int, headDim: int, kvElementBytes: int, declaredContextWindow: int)
  {
    function KvBytesPerToken(): int {
      layers * 2 * kvHeads * headDim * kvElementBytes
    }

    function KvFullWindowBytes(): int {
      declaredContextWindow * KvBytesPerToken()
    }
  }

  // ----- JSON values, with Python's truth and integer tests -----

  datatype Json =
    | JNull
    | JBool(b: bool)
    | JInt(i: int)
    | JReal(isZero: bool)
    | JStr(s: string)
    | JList(isEmpty: bool)
    | JMap(entries: map<string, Json>)

  type ModelConfig = map<string, Json>

  predicate Truthy(j: Json) {
    match j
    case JNull => false
    case JBool(b) => b
    case JInt(i) => i != 0
    case JReal(isZero) => !isZero
    case JStr(s) => s != ""
    case JList(isEmpty) => !isEmpty
    case JMap(m) => m != map[]
  }

  function Or(a: Json, b: Json): Json { if Truthy(a) then a else b }

  /** isinstance(value, int): a Python bool is one, with value 0 or 1. */
  function AsInt(j: Json): Option<int> {
    match j
    case JInt(i) => Some(i)
    case JBool(b) => Some(if b then 1 else 0)
    case _ => None
  }

  function Get(config: ModelConfig, key: string): Json {
    if key in config then config[key] else JNull
  }

  function Merged(config: ModelConfig): ModelConfig {
    var text := Get(config, "text_config");
    if text.JMap? then config + text.entries else config
  }

  /** The values Python takes for false, and those it takes for an int. */
  lemma TruthAndIntegers(j: Json)
    ensures !Truthy(j) <==> j in {JNull, JBool(false), JInt(0), JReal(true), JStr(""), JList(true), JMap(map[])}
    ensures AsInt(j).Some? <==> j.JInt? || j.JBool?
    ensures forall i :: AsInt(JInt(i)) == Some(i)
    ensures AsInt(JBool(true)) == Some(1) && AsInt(JBool(false)) == Some(0)
  {}

  /** A nested text configuration overrides the outer one, key by key. */
  lemma MergedMeaning(config: ModelConfig, key: string)
    ensures if "text_config" in config && config["text_config"].JMap? && key in config["text_config"].entries
            then Get(Merged(config), key) == config["text_config"].entries[key]
            else Get(Merged(config), key) == (if key in config then config[key] else JNull)
  {}

  // ----- element sizes -----

  function Lower(s: string): string {
    seq(|s|, i requires 0 <= i < |s| => if 'A' <= s[i] <= 'Z' then (s[i] as int + 32) as char else s[i])
  }

  /** No capital is left, each becomes the small letter 32 places on, and nothing else changes. */
  lemma LowerMeaning(s: string, i: nat)
    requires i < |s|
    ensures |Lower(s)| == |s| && !('A' <= Lower(s)[i] <= 'Z')
    ensures Lower(s)[i] != s[i] ==> 'A' <= s[i] <= 'Z' && Lower(s)[i] as int == s[i] as int + 32
  {}

  predicate IsBlank(c: char) { c == ' ' || '\t' <= c <= '\r' }

  function StripBlanks(s: string): string
    decreases |s|
  {
    if s != "" && IsBlank(s[0]) then StripBlanks(s[1..])
    else if s != "" && IsBlank(s[|s| - 1]) then StripBlanks(s[..|s| - 1])
    else s
  }

  const FOUR_BYTE_DTYPES := {"float32", "float", "fp32"}
  const ONE_BYTE_DTYPES := {"float8", "fp8", "fp8_e4m3", "fp8_e5m2", "float8_e4m3fn", "float8_e5m2", "int8"}

  function KvElementBytesForDtype(dtypeName: string): int {
    var lowered := Lower(StripBlanks(dtypeName));
    var normalized := if "torch." <= lowered then lowered[6..] else lowered;
    if normalized in FOUR_BYTE_DTYPES then 4
    else if normalized in ONE_BYTE_DTYPES then 1
    else 2
  }

  /** A name without blanks at its ends and without capitals. */
  predicate IsPlain(s: string) {
    && (s != "" ==> !IsBlank(s[0]) && !IsBlank(s[|s| - 1]))
    && forall i | 0 <= i < |s| :: !('A' <= s[i] <= 'Z')
  }

  lemma PlainName(s: string)
    requires IsPlain(s)
    ensures Lower(StripBlanks(s)) == s
  {}

  /** The element sizes of the names that have one, and two bytes for any other. */
  lemma DtypeBytes(s: string)
    requires IsPlain(s) && !("torch." <= s)
    ensures s in {"float32", "float", "fp32"} ==> KvElementBytesForDtype(s) == 4
    ensures s in {"float8", "fp8", "fp8_e4m3", "fp8_e5m2", "float8_e4m3fn", "float8_e5m2", "int8"} ==> KvElementBytesForDtype(s) == 1
    ensures s !in {"float32", "float", "fp32", "float8", "fp8", "fp8_e4m3", "fp8_e5m2", "float8_e4m3fn", "float8_e5m2", "int8"} ==>
              KvElementBytesForDtype(s) == 2
  {
    PlainName(s);
  }

  lemma TorchPrefix(s: string)
    requires IsPlain(s) && !("torch." <= s)
    ensures KvElementBytesForDtype("torch." + s) == KvElementBytesForDtype(s)
  {
    PlainName(s);
    var t := "torch." + s;
    assert IsPlain(t) by {
      assert t[|t| - 1] == (if s == "" then '.' else s[|s| - 1]);
    }
    PlainName(t);
    assert t[6..] == s;
  }

  /** Blanks around a name and its capitals do not matter. */
  lemma DtypeSpelling(s: string, blank: char)
    requires IsBlank(blank)
    ensures KvElementBytesForDtype([blank] + s) == KvElementBytesForDtype(s)
    ensures KvElementBytesForDtype(s + [blank]) == KvElementBytesForDtype(s)
    ensures KvElementBytesForDtype(Lower(s)) == KvElementBytesForDtype(s)
  {
    assert ([blank] + s)[1..] == s;
    StripAtEnd(s, blank);
    StripLower(s);
  }

  lemma {:induction false} StripAtEnd(s: string, blank: char)
    requires IsBlank(blank)
    ensures StripBlanks(s + [blank]) == StripBlanks(s)
    decreases |s|
  {
    if s != "" && IsBlank(s[0]) {
      assert (s + [blank])[1..] == s[1..] + [blank];
      StripAtEnd(s[1..], blank);
    } else {
      assert (s + [blank])[..|s|] == s;
      if s == "" { assert (s + [blank])[1..] == s; }
    }
  }

  lemma {:induction false} StripLower(s: string)
    ensures Lower(StripBlanks(Lower(s))) == Lower(StripBlanks(s))
    decreases |s|
  {
    if s != "" && IsBlank(s[0]) {
      assert Lower(s)[1..] == Lower(s[1..]);
      StripLower(s[1..]);
    } else if s != "" && IsBlank(s[|s| - 1]) {
      assert Lower(s)[..|s| - 1] == Lower(s[..|s| - 1]);
      StripLower(s[..|s| - 1]);
    } else {
      assert Lower(Lower(s)) == Lower(s);
    }
  }

  // ----- deriving a profile from a model's config.json -----

  const WINDOW_KEYS := ["max_position_embeddings", "max_sequence_length", "n_positions", "model_max_length"]

  predicate PositiveInt(j: Json) {
    AsInt(j).Some? && AsInt(j).value > 0
  }

  /** The first of the window keys, from the i-th on, that holds a positive integer; else 0. */
  function ContextWindow(config: ModelConfig, i: nat): (window: int)
    requires i <= |WINDOW_KEYS|
    ensures window >= 0
    ensures window > 0 <==> exists k | i <= k < |WINDOW_KEYS| :: PositiveInt(Get(config, WINDOW_KEYS[k]))
    ensures window > 0 ==> exists k | i <= k < |WINDOW_KEYS| ::
              && AsInt(Get(config, WINDOW_KEYS[k])) == Some(window)
              && forall m | i <= m < k :: !PositiveInt(Get(config, WINDOW_KEYS[m]))
    decreases |WINDOW_KEYS| - i
  {
    if i == |WINDOW_KEYS| then 0
    else if PositiveInt(Get(config, WINDOW_KEYS[i])) then AsInt(Get(config, WINDOW_KEYS[i])).value
    else ContextWindow(config, i + 1)
  }

  /** What the configuration check demands of a KV profile. */
  predicate PassesKvChecks(p: KVCacheProfile) {
    p.layers > 0 && p.kvHeads > 0 && p.headDim > 0 && p.kvElementBytes > 0
  }

  /** The head dimension a config states, or else the hidden size divided among the attention heads. */
  function HeadDim(merged: ModelConfig): int {
    var heads := AsInt(Or(Get(merged, "num_attention_heads"), Get(merged, "n_head")));
    var hidden := AsInt(Or(Get(merged, "hidden_size"), Get(merged, "n_embd")));
    if PositiveInt(Get(merged, "head_dim")) then AsInt(Get(merged, "head_dim")).value
    else if hidden.Some? && heads.Some? && heads.value > 0 then hidden.value / heads.value
    else 0
  }

  function StatedLayers(merged: ModelConfig): Json {
    Or(Get(merged, "num_hidden_layers"), Get(merged, "n_layer"))
  }

  function StatedKvHeads(merged: ModelConfig): Json {
    Or(Get(merged, "num_key_value_heads"), Or(Get(merged, "num_attention_heads"), Get(merged, "n_head")))
  }

  /** Which keys state the depth and the KV heads, and in which order they are asked. */
  lemma StatedMeaning(merged: ModelConfig)
    ensures Truthy(Get(merged, "num_hidden_layers")) ==> StatedLayers(merged) == Get(merged, "num_hidden_layers")
    ensures !Truthy(Get(merged, "num_hidden_layers")) ==> StatedLayers(merged) == Get(merged, "n_layer")
    ensures Truthy(Get(merged, "num_key_value_heads")) ==> StatedKvHeads(merged) == Get(merged, "num_key_value_heads")
    ensures !Truthy(Get(merged, "num_key_value_heads")) && Truthy(Get(merged, "num_attention_heads")) ==>
              StatedKvHeads(merged) == Get(merged, "num_attention_heads")
    ensures !Truthy(Get(merged, "num_key_value_heads")) && !Truthy(Get(merged, "num_attention_heads")) ==>
              StatedKvHeads(merged) == Get(merged, "n_head")
  {}

  /** The head dimension is the stated one if that is a positive integer; otherwise
      as much of the hidden size as falls to one attention head, rounded down; otherwise zero. */
  lemma HeadDimMeaning(merged: ModelConfig, hidden: Json, heads: Json)
    requires hidden == if Truthy(Get(merged, "hidden_size")) then Get(merged, "hidden_size") else Get(merged, "n_embd")
    requires heads == if Truthy(Get(merged, "num_attention_heads")) then Get(merged, "num_attention_heads") else Get(merged, "n_head")
    ensures forall d | d > 0 && AsInt(Get(merged, "head_dim")) == Some(d) :: HeadDim(merged) == d
    ensures (forall d | AsInt(Get(merged, "head_dim")) == Some(d) :: d <= 0) ==>
              if AsInt(hidden).Some? && AsInt(heads).Some? && AsInt(heads).value > 0 then
                HeadDim(merged) * AsInt(heads).value <= AsInt(hidden).value < (HeadDim(merged) + 1) * AsInt(heads).value
              else HeadDim(merged) == 0
  {
    if AsInt(hidden).Some? && AsInt(heads).Some? && AsInt(heads).value > 0 {
      var h, n := AsInt(hidden).value, AsInt(heads).value;
      assert (h / n) * n + h % n == h;
    }
  }

  /** The window is the first of these keys to hold a positive integer. */
  lemma WindowMeaning(merged: ModelConfig, d: int)
    requires d > 0
    ensures AsInt(Get(merged, "max_position_embeddings")) == Some(d) ==> ContextWindow(merged, 0) == d
    ensures !PositiveInt(Get(merged, "max_position_embeddings")) ==>
              && (AsInt(Get(merged, "max_sequence_length")) == Some(d) ==> ContextWindow(merged, 0) == d)
              && (!PositiveInt(Get(merged, "max_sequence_length")) ==>
                    && (AsInt(Get(merged, "n_positions")) == Some(d) ==> ContextWindow(merged, 0) == d)
                    && (!PositiveInt(Get(merged, "n_positions")) ==>
                          && (AsInt(Get(merged, "model_max_length")) == Some(d) ==> ContextWindow(merged, 0) == d)
                          && (!PositiveInt(Get(merged, "model_max_length")) ==> ContextWindow(merged, 0) == 0)))
  {
    assert WINDOW_KEYS[0] == "max_position_embeddings" && WINDOW_KEYS[1] == "max_sequence_length";
    assert WINDOW_KEYS[2] == "n_positions" && WINDOW_KEYS[3] == "model_max_length";
    assert ContextWindow(merged, 4) == 0;
    assert ContextWindow(merged, 2) == if PositiveInt(Get(merged, "n_positions")) then AsInt(Get(merged, "n_positions")).value else ContextWindow(merged, 3);
  }

  /** Which dtype the KV cache is sized with. */
  lemma KvDtypeMeaning(merged: ModelConfig, requested: string)
    ensures requested != "" && Lower(requested) != "auto" ==> KvDtype(merged, Some(requested)) == requested
    ensures requested == "" || Lower(requested) == "auto" ==> KvDtype(merged, Some(requested)) == KvDtype(merged, None)
    ensures forall name | name != "" && Get(merged, "torch_dtype") == JStr(name) :: KvDtype(merged, None) == name
    ensures forall name | name != "" && !Truthy(Get(merged, "torch_dtype")) && Get(merged, "dtype") == JStr(name) ::
              KvDtype(merged, None) == name
    ensures !Truthy(Get(merged, "torch_dtype")) && !Truthy(Get(merged, "dtype")) ==> KvDtype(merged, None) == "bfloat16"
  {}

  /** The KV dtype: the requested one unless it is absent or "auto", else the model's own. */
  function KvDtype(merged: ModelConfig, kvCacheDtype: Option<string>): string {
    if kvCacheDtype.Some? && kvCacheDtype.value != "" && Lower(kvCacheDtype.value) != "auto" then kvCacheDtype.value
    else
      var modelDtype := Or(Get(merged, "torch_dtype"), Or(Get(merged, "dtype"), JStr("bfloat16")));
      if modelDtype.JStr? then modelDtype.s else "" // any other value prints as a name no dtype has
  }

  method FindContextWindow(merged: ModelConfig) returns (window: int)
    ensures window == ContextWindow(merged, 0)
  {
    window := 0;
    var k := 0;
    while k < |WINDOW_KEYS|
      invariant 0 <= k <= |WINDOW_KEYS|
      invariant window == 0
      invariant ContextWindow(merged, 0) == ContextWindow(merged, k)
    {
      var value := AsInt(Get(merged, WINDOW_KEYS[k]));
      if value.Some? && value.value > 0 {
        window := value.value;
        break;
      }
      k := k + 1;
    }
  }

  /** Derives a profile exactly when the config states a positive depth, head
      count, head dimension and window; every profile derived passes the KV checks. */
  method DeriveKvCacheProfile(modelConfig: ModelConfig, kvCacheDtype: Option<string>) returns (profile: Option<KVCacheProfile>)
    ensures var merged := Merged(modelConfig);
            profile.Some? <==> && PositiveInt(StatedLayers(merged)) && PositiveInt(StatedKvHeads(merged))
                               && HeadDim(merged) > 0 && ContextWindow(merged, 0) > 0
    ensures profile.Some? ==>
              var merged := Merged(modelConfig);
              && AsInt(StatedLayers(merged)) == Some(profile.value.layers)
              && AsInt(StatedKvHeads(merged)) == Some(profile.value.kvHeads)
              && profile.value.headDim == HeadDim(merged)
              && profile.value.kvElementBytes == KvElementBytesForDtype(KvDtype(merged, kvCacheDtype))
              && profile.value.declaredContextWindow == ContextWindow(merged, 0)
    ensures profile.Some? ==> PassesKvChecks(profile.value) && profile.value.declaredContextWindow > 0
  {
    var merged := Merged(modelConfig);
    var layers := AsInt(StatedLayers(merged));
    var kvHeads := AsInt(StatedKvHeads(merged));
    var headDim := HeadDim(merged);
    var window := FindContextWindow(merged);
    if layers.None? || layers.value <= 0 { return None; }
    if kvHeads.None? || kvHeads.value <= 0 { return None; }
    if headDim <= 0 || window <= 0 { return None; }
    var elementBytes := KvElementBytesForDtype(KvDtype(merged, kvCacheDtype));
    profile := Some(KVCacheProfile(layers.value, kvHeads.value, headDim, elementBytes, window));
  }

  lemma ProductGrows(a: int, b: int)
    requires a >= 1 && b >= 1
    ensures a * b >= a && a * b >= b
  {
    assert a * b - a == a * (b - 1) >= 0;
    assert a * b - b == (a - 1) * b >= 0;
  }

  /** A profile that passes the checks charges at least two bytes for every token of the window. */
  lemma KvCostIsPositive(p: KVCacheProfile)
    requires PassesKvChecks(p)
    ensures p.KvBytesPerToken() >= 2
  {
    ProductGrows(p.layers * 2, p.kvHeads);
    ProductGrows(p.layers * 2 * p.kvHeads, p.headDim);
    ProductGrows(p.layers * 2 * p.kvHeads * p.headDim, p.kvElementBytes);
  }

  lemma Distribute(x: int, a: int, b: int)
    ensures x * (a + b) == x * a + x * b && (a + b) * x == a * x + b * x
  {}

  /** What a token costs: two bytes, a key and a value, for one layer, head, dimension
      and element byte, and as much again for each further one. */
  lemma KvCostAdds(p: KVCacheProfile, a: int, b: int)
    ensures KVCacheProfile(1, 1, 1, 1, p.declaredContextWindow).KvBytesPerToken() == 2
    ensures p.(layers := a + b).KvBytesPerToken() == p.(layers := a).KvBytesPerToken() + p.(layers := b).KvBytesPerToken()
    ensures p.(kvHeads := a + b).KvBytesPerToken() == p.(kvHeads := a).KvBytesPerToken() + p.(kvHeads := b).KvBytesPerToken()
    ensures p.(headDim := a + b).KvBytesPerToken() == p.(headDim := a).KvBytesPerToken() + p.(headDim := b).KvBytesPerToken()
    ensures p.(kvElementBytes := a + b).KvBytesPerToken()
         == p.(kvElementBytes := a).KvBytesPerToken() + p.(kvElementBytes := b).KvBytesPerToken()
    ensures p.(declaredContextWindow := a + b).KvFullWindowBytes()
         == p.(declaredContextWindow := a).KvFullWindowBytes() + p.(declaredContextWindow := b).KvFullWindowBytes()
    ensures p.(declaredContextWindow := 1).KvFullWindowBytes() == p.KvBytesPerToken()
  {
    LayersAdd(a, b, p.kvHeads, p.headDim, p.kvElementBytes);
    var x := p.layers * 2;
    Distribute(x, a, b);
    Distribute(p.headDim, x * a, x * b);
    Distribute(p.kvElementBytes, x * a * p.headDim, x * b * p.headDim);
    var y := x * p.kvHeads;
    Distribute(y, a, b);
    Distribute(p.kvElementBytes, y * a, y * b);
    Distribute(y * p.headDim, a, b);
    Distribute(p.KvBytesPerToken(), a, b);
  }

  lemma LayersAdd(a: int, b: int, heads: int, dim: int, bytes: int)
    ensures (a + b) * 2 * heads * dim * bytes == a * 2 * heads * dim * bytes + b * 2 * heads * dim * bytes
  {
    Distribute(heads, a * 2, b * 2);
    Distribute(dim, a * 2 * heads, b * 2 * heads);
    Distribute(bytes, a * 2 * heads * dim, b * 2 * heads * dim);
  }

  /** A 36-layer model with 8 KV heads of dimension 128 in half precision. */
  lemma OrdinaryKvCost()
    ensures KVCacheProfile(36, 8, 128, 2, 40960).KvBytesPerToken() == 147456
  {}

  lemma ProfileCostsArePositive(p: KVCacheProfile)
    requires PassesKvChecks(p) && p.declaredContextWindow > 0
    ensures p.KvBytesPerToken() >= 2
    ensures p.KvFullWindowBytes() >= p.KvBytesPerToken()
    ensures p.KvFullWindowBytes() >= p.declaredContextWindow
  {
    KvCostIsPositive(p);
    ProductGrows(p.declaredContextWindow, p.KvBytesPerToken());
  }

  // ----- validating a runtime configuration -----

  datatype ModelProfile = ModelProfile(modelName: string, declaredContextWindow: int, kv: KVCacheProfile)

  datatype RuntimeConfiguration = RuntimeConfiguration(
    gpuCount: int, totalVram: int, totalRam: int, models: map<string, ModelProfile>,
    defaultModelName: string, safetyMargin: int, runtimeReserve: int)

  predicate ValidModel(name: string, m: ModelProfile) {
    && m.modelName == name
    && m.declaredContextWindow > 0
    && PassesKvChecks(m.kv)
    && m.kv.declaredContextWindow == m.declaredContextWindow
  }

  predicate ValidConfiguration(c: RuntimeConfiguration) {
    && c.gpuCount >= 1 && c.totalVram > 0 && c.totalRam > 0
    && c.defaultModelName in c.models
    && c.safetyMargin >= 0 && c.runtimeReserve >= 0
    && forall name | name in c.models :: ValidModel(name, c.models[name])
  }

  /** Returns the configuration itself exactly when it is valid. */
  method ValidateRuntimeConfiguration(config: RuntimeConfiguration) returns (r: Result<RuntimeConfiguration>)
    ensures r == if ValidConfiguration(config) then Ok(config) else ValueError
  {
    if config.gpuCount < 1 { return ValueError; }
    if config.totalVram <= 0 { return ValueError; }
    if config.totalRam <= 0 { return ValueError; }
    if config.models == map[] { return ValueError; }
    if config.defaultModelName !in config.models { return ValueError; }
    if config.safetyMargin < 0 { return ValueError; }
    if config.runtimeReserve < 0 { return ValueError; }
    var rest := config.models.Keys;
    while rest != {}
      invariant rest <= config.models.Keys
      invariant forall name | name in config.models.Keys - rest :: ValidModel(name, config.models[name])
      decreases |rest|
    {
      var name :| name in rest;
      var model := config.models[name];
      if model.modelName != name { return ValueError; }
      if model.declaredContextWindow <= 0 { return ValueError; }
      if model.kv.layers <= 0 || model.kv.kvHeads <= 0 || model.kv.headDim <= 0 { return ValueError; }
      if model.kv.kvElementBytes <= 0 { return ValueError; }
      if model.kv.declaredContextWindow != model.declaredContextWindow { return ValueError; }
      rest := rest - {name};
    }
    assert config.models.Keys - rest == config.models.Keys;
    r := Ok(config);
  }
}
