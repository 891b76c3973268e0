/** ModelDetails.jsx: the numbers the model panel derives from a model's
    details record — minimal VRAM, the backend's KV-cache size, the displayed
    first-token latency, and the per-session KV-cache estimate computed from
    the model's configuration. */
module ModelDetails {
  import opened JsValues

  /** `1024 ** 3` */
  const GIB: real := 1073741824.0

  /** The bytes per cache element used when none is given (fp16). */
  const DEFAULT_BYTES_PER_ELEMENT: real := 2.0

  /** `Math.round(x)`: the nearest integer, halves rounded up. */
  function JsRound(x: real): (r: real)
    ensures r == r.Floor as real
    ensures x - 0.5 < r <= x + 0.5
  {
    (x + 0.5).Floor as real
  }

  /** `Math.floor(x)` */
  function JsFloor(x: real): (r: real)
    ensures r == r.Floor as real
    ensures r <= x < r + 1.0
  {
    x.Floor as real
  }

  /** `x ?? 0` on the result of a `toNum` chain. */
  function OrZero(r: Option<real>): real {
    if r.Some? then r.value else 0.0
  }

  /** `safeParseConfig(details)`: a falsy `config_json` gives null, a string is
      parsed (`parseJson` gives None where `JSON.parse` throws, which is also
      null) and any other value is used as it is. */
  function SafeParseConfig(details: JsValue, parseJson: string -> Option<JsValue>): (cfg: JsValue)
    ensures var raw := Get(details, "config_json");
      && (!Truthy(raw) ==> cfg == Null)
      && (Truthy(raw) && raw.Str? && parseJson(raw.s).Some? ==> cfg == parseJson(raw.s).value)
      && (Truthy(raw) && raw.Str? && parseJson(raw.s).None? ==> cfg == Null)
      && (Truthy(raw) && !raw.Str? ==> cfg == raw)
  {
    var raw := Get(details, "config_json");
    if !Truthy(raw) then Null
    else if raw.Str? then (match parseJson(raw.s) case Some(v) => v case None => Null)
    else raw
  }

  /** `L`: the configuration's layer count, else the fallback's, else 0. */
  function Layers(cfg: JsValue, fallbacks: JsValue, number: StringToNumber): real {
    OrZero(FirstNum([Get(cfg, "num_hidden_layers"), Get(fallbacks, "num_hidden_layers")], number))
  }

  /** `attnHeads`: the configuration's attention-head count, else the fallback's, else 0. */
  function AttnHeads(cfg: JsValue, fallbacks: JsValue, number: StringToNumber): real {
    OrZero(FirstNum([Get(cfg, "num_attention_heads"), Get(fallbacks, "num_attention_heads")], number))
  }

  /** `kvHeads`: the configuration's key/value-head count, else the attention
      heads. (`?? 0` after `attnHeads` never applies: attnHeads is a number.) */
  function KvHeads(cfg: JsValue, fallbacks: JsValue, number: StringToNumber): real {
    var kv := ToNum(Get(cfg, "num_key_value_heads"), number);
    if kv.Some? then kv.value else AttnHeads(cfg, fallbacks, number)
  }

  /** `dModel`: the configuration's hidden size, else the fallback's, else 0. */
  function DModel(cfg: JsValue, fallbacks: JsValue, number: StringToNumber): real {
    OrZero(FirstNum([Get(cfg, "hidden_size"), Get(fallbacks, "hidden_size")], number))
  }

  /** `headDim`: a truthy `head_dim`, else `floor(dModel / attnHeads)` when
      there are attention heads, else 0. */
  function HeadDim(cfg: JsValue, fallbacks: JsValue, number: StringToNumber): real {
    var h := ToNum(Get(cfg, "head_dim"), number);
    if h.Some? && h.value != 0.0 then h.value
    else
      var heads := AttnHeads(cfg, fallbacks, number);
      if heads != 0.0 then JsFloor(DModel(cfg, fallbacks, number) / heads) else 0.0
  }

  /** `L * S * kvHeads * headDim * 2 * bytesPerElt`: keys and values for every
      layer, position and key/value head. */
  function KvBytes(layers: real, s: real, kvHeads: real, headDim: real, bytesPerElt: real): real {
    layers * s * kvHeads * headDim * 2.0 * bytesPerElt
  }

  /** `estimateKvGiB(cfg, S, fallbacks, bytesPerElt)`: null when the layer
      count, S, the key/value heads or the head dimension is zero; otherwise
      the cache size in GiB. */
  function EstimateKvGiB(cfg: JsValue, s: real, fallbacks: JsValue, bytesPerElt: real,
                         number: StringToNumber): (r: Option<real>)
    ensures r.None? <==> Layers(cfg, fallbacks, number) == 0.0 || s == 0.0
                         || KvHeads(cfg, fallbacks, number) == 0.0 || HeadDim(cfg, fallbacks, number) == 0.0
    ensures r.Some? ==> r.value * GIB == KvBytes(Layers(cfg, fallbacks, number), s, KvHeads(cfg, fallbacks, number),
                                               HeadDim(cfg, fallbacks, number), bytesPerElt)
  {
    var layers := Layers(cfg, fallbacks, number);
    if layers == 0.0 || s == 0.0 then None
    else
      var kvHeads := KvHeads(cfg, fallbacks, number);
      if kvHeads == 0.0 then None
      else
        var headDim := HeadDim(cfg, fallbacks, number);
        if headDim == 0.0 then None
        else Some(KvBytes(layers, s, kvHeads, headDim, bytesPerElt) / GIB)
  }

  /** Scaling S scales the byte count: the product regrouped factor by factor. */
  lemma KvBytesLinearInContext(layers: real, s: real, c: real, kvHeads: real, headDim: real, bytesPerElt: real)
    ensures KvBytes(layers, c * s, kvHeads, headDim, bytesPerElt) == c * KvBytes(layers, s, kvHeads, headDim, bytesPerElt)
  {
    var x0 := layers * s;
    assert layers * (c * s) == c * x0;
    ScaleOut(c, x0, kvHeads);
    var x1 := x0 * kvHeads;
    ScaleOut(c, x1, headDim);
    var x2 := x1 * headDim;
    ScaleOut(c, x2, 2.0);
    var x3 := x2 * 2.0;
    ScaleOut(c, x3, bytesPerElt);
  }

  /** Scaling the bytes per element scales the byte count. */
  lemma KvBytesLinearInElementSize(layers: real, s: real, kvHeads: real, headDim: real, bytesPerElt: real, c: real)
    ensures KvBytes(layers, s, kvHeads, headDim, c * bytesPerElt) == c * KvBytes(layers, s, kvHeads, headDim, bytesPerElt)
  {
    var x := layers * s * kvHeads * headDim * 2.0;
    assert x * (c * bytesPerElt) == c * (x * bytesPerElt);
  }

  lemma ScaleOut(c: real, x: real, y: real)
    ensures (c * x) * y == c * (x * y)
  {
  }

  /** The KV cache grows linearly with the context length: scaling S by a
      non-zero factor scales the estimate by the same factor. */
  lemma EstimateLinearInContext(cfg: JsValue, s: real, c: real, fallbacks: JsValue, bytesPerElt: real,
                                number: StringToNumber)
    requires c != 0.0
    ensures EstimateKvGiB(cfg, c * s, fallbacks, bytesPerElt, number).None?
            <==> EstimateKvGiB(cfg, s, fallbacks, bytesPerElt, number).None?
    ensures EstimateKvGiB(cfg, s, fallbacks, bytesPerElt, number).Some? ==>
            EstimateKvGiB(cfg, c * s, fallbacks, bytesPerElt, number).value
            == c * EstimateKvGiB(cfg, s, fallbacks, bytesPerElt, number).value
  {
    var l, kv, hd := Layers(cfg, fallbacks, number), KvHeads(cfg, fallbacks, number), HeadDim(cfg, fallbacks, number);
    assert c * s == 0.0 <==> s == 0.0;
    var e0 := EstimateKvGiB(cfg, s, fallbacks, bytesPerElt, number);
    var e1 := EstimateKvGiB(cfg, c * s, fallbacks, bytesPerElt, number);
    if e0.Some? {
      KvBytesLinearInContext(l, s, c, kv, hd, bytesPerElt);
      assert e1.value * GIB == c * (e0.value * GIB);
      assert e1.value * GIB == (c * e0.value) * GIB;
    }
  }

  /** The estimate is proportional to the bytes per element: scaling it by a
      factor scales the estimate by the same factor (fp32's 4 bytes double the
      fp16 figure), and whether there is an estimate does not depend on it. */
  lemma EstimateLinearInElementSize(cfg: JsValue, s: real, fallbacks: JsValue, bytesPerElt: real, c: real,
                                    number: StringToNumber)
    ensures EstimateKvGiB(cfg, s, fallbacks, c * bytesPerElt, number).None?
            <==> EstimateKvGiB(cfg, s, fallbacks, bytesPerElt, number).None?
    ensures EstimateKvGiB(cfg, s, fallbacks, bytesPerElt, number).Some? ==>
            EstimateKvGiB(cfg, s, fallbacks, c * bytesPerElt, number).value
            == c * EstimateKvGiB(cfg, s, fallbacks, bytesPerElt, number).value
  {
    var l, kv, hd := Layers(cfg, fallbacks, number), KvHeads(cfg, fallbacks, number), HeadDim(cfg, fallbacks, number);
    var e0 := EstimateKvGiB(cfg, s, fallbacks, bytesPerElt, number);
    var e1 := EstimateKvGiB(cfg, s, fallbacks, c * bytesPerElt, number);
    if e0.Some? {
      KvBytesLinearInElementSize(l, s, kv, hd, bytesPerElt, c);
      assert e1.value * GIB == c * (e0.value * GIB);
      assert e1.value * GIB == (c * e0.value) * GIB;
    }
  }

  /** A numeric `cfg.num_hidden_layers` is the layer count, whatever the fallbacks say. */
  lemma LayersPreferConfig(cfg: JsValue, fallbacks: JsValue, number: StringToNumber)
    requires ToNum(Get(cfg, "num_hidden_layers"), number).Some?
    ensures Layers(cfg, fallbacks, number) == ToNum(Get(cfg, "num_hidden_layers"), number).value
  {
    FirstNumHead([Get(cfg, "num_hidden_layers"), Get(fallbacks, "num_hidden_layers")], number);
  }

  /** A numeric `cfg.num_attention_heads` is the attention-head count, whatever the fallbacks say. */
  lemma AttnHeadsPreferConfig(cfg: JsValue, fallbacks: JsValue, number: StringToNumber)
    requires ToNum(Get(cfg, "num_attention_heads"), number).Some?
    ensures AttnHeads(cfg, fallbacks, number) == ToNum(Get(cfg, "num_attention_heads"), number).value
  {
    FirstNumHead([Get(cfg, "num_attention_heads"), Get(fallbacks, "num_attention_heads")], number);
  }

  /** A numeric `cfg.hidden_size` is the hidden size, whatever the fallbacks say. */
  lemma DModelPrefersConfig(cfg: JsValue, fallbacks: JsValue, number: StringToNumber)
    requires ToNum(Get(cfg, "hidden_size"), number).Some?
    ensures DModel(cfg, fallbacks, number) == ToNum(Get(cfg, "hidden_size"), number).value
  {
    FirstNumHead([Get(cfg, "hidden_size"), Get(fallbacks, "hidden_size")], number);
  }

  /** When the configuration gives numeric layer, attention-head and hidden
      sizes, the fallbacks are not used at all. */
  lemma ConfigOverridesFallbacks(cfg: JsValue, s: real, fallbacks1: JsValue, fallbacks2: JsValue,
                                 bytesPerElt: real, number: StringToNumber)
    requires ToNum(Get(cfg, "num_hidden_layers"), number).Some?
    requires ToNum(Get(cfg, "num_attention_heads"), number).Some?
    requires ToNum(Get(cfg, "hidden_size"), number).Some?
    ensures EstimateKvGiB(cfg, s, fallbacks1, bytesPerElt, number)
            == EstimateKvGiB(cfg, s, fallbacks2, bytesPerElt, number)
  {
    LayersPreferConfig(cfg, fallbacks1, number);
    LayersPreferConfig(cfg, fallbacks2, number);
    SizesPreferConfig(cfg, fallbacks1, number);
    SizesPreferConfig(cfg, fallbacks2, number);
    EstimateDependsOnSizesOnly(cfg, s, fallbacks1, fallbacks2, bytesPerElt, number);
  }

  /** With numeric attention heads and hidden size in the configuration, the
      key/value heads and the head dimension come from the configuration alone. */
  lemma SizesPreferConfig(cfg: JsValue, fallbacks: JsValue, number: StringToNumber)
    requires ToNum(Get(cfg, "num_attention_heads"), number).Some?
    requires ToNum(Get(cfg, "hidden_size"), number).Some?
    ensures KvHeads(cfg, fallbacks, number) == KvHeads(cfg, Null, number)
    ensures HeadDim(cfg, fallbacks, number) == HeadDim(cfg, Null, number)
  {
    AttnHeadsPreferConfig(cfg, fallbacks, number);
    AttnHeadsPreferConfig(cfg, Null, number);
    DModelPrefersConfig(cfg, fallbacks, number);
    DModelPrefersConfig(cfg, Null, number);
  }

  /** The estimate reads the fallbacks only through the three sizes it derives. */
  lemma EstimateDependsOnSizesOnly(cfg: JsValue, s: real, fallbacks1: JsValue, fallbacks2: JsValue,
                                   bytesPerElt: real, number: StringToNumber)
    requires Layers(cfg, fallbacks1, number) == Layers(cfg, fallbacks2, number)
    requires KvHeads(cfg, fallbacks1, number) == KvHeads(cfg, fallbacks2, number)
    requires HeadDim(cfg, fallbacks1, number) == HeadDim(cfg, fallbacks2, number)
    ensures EstimateKvGiB(cfg, s, fallbacks1, bytesPerElt, number)
            == EstimateKvGiB(cfg, s, fallbacks2, bytesPerElt, number)
  {
  }

  /** A numeric first field decides a `??` chain. */
  lemma FirstNumHead(vs: seq<JsValue>, number: StringToNumber)
    requires |vs| > 0 && ToNum(vs[0], number).Some?
    ensures FirstNum(vs, number) == ToNum(vs[0], number)
  {
  }

  /** The fallbacks object is never asked for key/value heads: giving it a
      `num_key_value_heads` field changes nothing. */
  lemma KvHeadsIgnoreFallbacks(cfg: JsValue, s: real, fields: map<string, JsValue>, v: JsValue,
                               bytesPerElt: real, number: StringToNumber)
    ensures EstimateKvGiB(cfg, s, Obj(fields), bytesPerElt, number)
            == EstimateKvGiB(cfg, s, Obj(fields["num_key_value_heads" := v]), bytesPerElt, number)
  {
    var other := Obj(fields["num_key_value_heads" := v]);
    assert Get(other, "num_hidden_layers") == Get(Obj(fields), "num_hidden_layers");
    assert Get(other, "num_attention_heads") == Get(Obj(fields), "num_attention_heads");
    assert Get(other, "hidden_size") == Get(Obj(fields), "hidden_size");
  }

  /** Without a truthy head_dim, the head dimension is the hidden size split
      evenly over the attention heads, rounded down. */
  lemma HeadDimFromHiddenSize(cfg: JsValue, fallbacks: JsValue, number: StringToNumber)
    requires ToNum(Get(cfg, "head_dim"), number).None? || ToNum(Get(cfg, "head_dim"), number) == Some(0.0)
    requires AttnHeads(cfg, fallbacks, number) > 0.0
    ensures HeadDim(cfg, fallbacks, number) * AttnHeads(cfg, fallbacks, number) <= DModel(cfg, fallbacks, number)
    ensures DModel(cfg, fallbacks, number) < (HeadDim(cfg, fallbacks, number) + 1.0) * AttnHeads(cfg, fallbacks, number)
  {
    var heads, d, hd := AttnHeads(cfg, fallbacks, number), DModel(cfg, fallbacks, number), HeadDim(cfg, fallbacks, number);
    assert hd == JsFloor(d / heads);
    FloorDivBounds(d, heads, hd);
  }

  /** `Math.floor(d / heads)` times `heads` lies within one `heads` below `d`. */
  lemma FloorDivBounds(d: real, heads: real, h: real)
    requires heads > 0.0 && h == JsFloor(d / heads)
    ensures h * heads <= d < (h + 1.0) * heads
  {
    var q := d / heads;
    assert q * heads == d;
    var hi := h + 1.0;
    assert h <= q < hi;
    MulMonotone(h, q, heads);
    MulStrictMonotone(q, hi, heads);
    assert d < hi * heads;
  }

  lemma MulMonotone(a: real, b: real, c: real)
    requires a <= b && c > 0.0
    ensures a * c <= b * c
  {
  }

  lemma MulStrictMonotone(a: real, b: real, c: real)
    requires a < b && c > 0.0
    ensures a * c < b * c
  {
  }

  /** The fallbacks object the panel hands to estimateKvGiB: three fields of
      the details record. */
  function DetailsFallbacks(details: JsValue): JsValue {
    Obj(map["num_hidden_layers" := Get(details, "num_hidden_layers"),
            "hidden_size" := Get(details, "hidden_size"),
            "num_attention_heads" := Get(details, "num_attention_heads")])
  }

  /** `tokenSizeBytes || 2`, with the prop defaulting to 2 when absent. */
  function BytesPerElement(tokenSizeBytes: Option<real>): real {
    if tokenSizeBytes.Some? && tokenSizeBytes.value != 0.0 then tokenSizeBytes.value else DEFAULT_BYTES_PER_ELEMENT
  }

  /** `kvPerSessionGb`: null without a truthy configuration or context length,
      otherwise the estimate for that context length. */
  function KvPerSessionGb(details: JsValue, contextLen: Option<real>, tokenSizeBytes: Option<real>,
                          number: StringToNumber, parseJson: string -> Option<JsValue>): (r: Option<real>)
    ensures !Truthy(SafeParseConfig(details, parseJson)) ==> r.None?
    ensures contextLen.None? || contextLen == Some(0.0) ==> r.None?
    ensures Truthy(SafeParseConfig(details, parseJson)) && contextLen.Some? && contextLen.value != 0.0 ==>
            r == EstimateKvGiB(SafeParseConfig(details, parseJson), contextLen.value, DetailsFallbacks(details),
                               BytesPerElement(tokenSizeBytes), number)
  {
    var cfg := SafeParseConfig(details, parseJson);
    if !Truthy(cfg) || contextLen.None? || contextLen.value == 0.0 then None
    else EstimateKvGiB(cfg, contextLen.value, DetailsFallbacks(details), BytesPerElement(tokenSizeBytes), number)
  }

  /** `minimalVram`: the first numeric of `minimal_gpu_memory_gb`,
      `base_vram_gb`, `min_vram_gb`. */
  function MinimalVram(details: JsValue, number: StringToNumber): (r: Option<real>)
    ensures var a, b, c := ToNum(Get(details, "minimal_gpu_memory_gb"), number),
                           ToNum(Get(details, "base_vram_gb"), number),
                           ToNum(Get(details, "min_vram_gb"), number);
      && (a.Some? ==> r == a)
      && (a.None? && b.Some? ==> r == b)
      && (a.None? && b.None? ==> r == c)
  {
    var fields := [Get(details, "minimal_gpu_memory_gb"), Get(details, "base_vram_gb"), Get(details, "min_vram_gb")];
    FirstNumOfThree(fields, number);
    FirstNum(fields, number)
  }

  /** `kvApiGb`: the first numeric of the fp16, bf16 and fp32 KV-cache sizes. */
  function KvApiGb(details: JsValue, number: StringToNumber): (r: Option<real>)
    ensures var a, b, c := ToNum(Get(details, "kv_cache_fp16_gb"), number),
                           ToNum(Get(details, "kv_cache_bf16_gb"), number),
                           ToNum(Get(details, "kv_cache_fp32_gb"), number);
      && (a.Some? ==> r == a)
      && (a.None? && b.Some? ==> r == b)
      && (a.None? && b.None? ==> r == c)
  {
    var fields := [Get(details, "kv_cache_fp16_gb"), Get(details, "kv_cache_bf16_gb"), Get(details, "kv_cache_fp32_gb")];
    FirstNumOfThree(fields, number);
    FirstNum(fields, number)
  }

  /** A three-field `??` chain, case by case. */
  lemma FirstNumOfThree(vs: seq<JsValue>, number: StringToNumber)
    requires |vs| == 3
    ensures ToNum(vs[0], number).Some? ==> FirstNum(vs, number) == ToNum(vs[0], number)
    ensures ToNum(vs[0], number).None? && ToNum(vs[1], number).Some? ==> FirstNum(vs, number) == ToNum(vs[1], number)
    ensures ToNum(vs[0], number).None? && ToNum(vs[1], number).None? ==> FirstNum(vs, number) == ToNum(vs[2], number)
  {
  }

  /** `latencyDisplayMs`: `base_latency_s` in milliseconds, rounded, when it is
      numeric; otherwise the first numeric of the millisecond fields and the
      `latencyMs` prop. */
  function LatencyDisplayMs(details: JsValue, latencyMs: JsValue, number: StringToNumber): (r: Option<real>)
    ensures var s := ToNum(Get(details, "base_latency_s"), number);
      && (s.Some? ==> r.Some? && r.value == r.value.Floor as real
                      && s.value * 1000.0 - 0.5 < r.value <= s.value * 1000.0 + 0.5)
      && (s.None? ==> r == FirstNum([Get(details, "first_token_latency_ms"), Get(details, "base_latency_ms"),
                                     Get(details, "first_time_to_token_latency_ms"), latencyMs], number))
  {
    var s := ToNum(Get(details, "base_latency_s"), number);
    if s.Some? then Some(JsRound(s.value * 1000.0))
    else FirstNum([Get(details, "first_token_latency_ms"), Get(details, "base_latency_ms"),
                   Get(details, "first_time_to_token_latency_ms"), latencyMs], number)
  }
}
