# gpu-sizer-ui client logic in Dafny

This project models the logic that the gpu-sizer-ui React front end runs in the
browser, and proves properties of it. The ranking of single GPUs happens on a
remote `/recommendation` endpoint and is not part of it.

The model covers five pieces:

- **`App`** (`App.jsx`):
  - `getTokensPerSec`;
  - the NVLink fallback `findNvlinkSolution`, which filters the NVLink GPUs, sorts a copy by VRAM in place, and takes the first GPU whose VRAM covers the model's requirement, sizing the group by throughput with a ceiling division;
  - `swapAlt`, which promotes an alternative to the recommended slot.
- **`SizingEstimate`** (`GpuSizingEstimate.jsx`): which recommendation, alternatives and reasoning the panel shows.
- **`ModelDetails`** (`ModelDetails.jsx`): the `toNum` fallback chains for minimal VRAM, KV cache size and latency, and the KV-cache estimate `estimateKvGiB`.
- **`ModelsChart`** (`ModelsChart.jsx`):
  - normalising the `models` prop into unique ids and records already at hand;
  - the hydration effect, which drains the id queue, appends one record per id (a placeholder `{model_id: id}` when the fetch fails) and publishes a copy after every append until the effect is cleaned up;
  - the chart rows and the `maxVram` bar scale.
- **`XAxisTick`** (`CustomXAxisTick.jsx`): the greedy word wrap `wrapText` of chart labels.

`JsValues` holds what they share:

- JavaScript values, with `null`/`undefined` and truthiness;
- `toNum`;
- the `a ?? b ?? …` chain as "first present value".

`Number(string)` and `JSON.parse` are parameters of the functions that need them.

`findNvlinkSolution`, the hydration loop and `wrapText` are methods with loops. Each is proved against a function:

- `FindNvlinkSolution` against `NvlinkSolution`, with the in-place sort against a functional stable insertion sort;
- `Hydrate`, with its queue runner `Runner`, against `Snapshots`;
- `WrapText` against the join of the text's words.

Everything else is functions and lemmas.

A few facts about the code that a reader might expect to be otherwise:

- **NVLink group size:** the group is sized by throughput only (`ceil(total / tokensPerGpu)`). The required VRAM only selects the GPU; the group size has no lower bound and no upper cap.
- **Failed fetches:** a failed fetch yields the placeholder `{model_id: id}`, which carries no flag marking it as a failure.
- **Cancellation:** lists already published stay published, and only later appends are dropped.
- **Final list:** without cancellation, the final list holds the pre-resolved records plus one record per unique id.

## Model

| member | source | states |
|---|---|---|
| JsValues.ToNum | src/components/ModelDetails.jsx:4-8 | null/undefined give null; a number is kept exactly when it is finite; a string goes through `Number` and is kept when the result is finite; any other value gives null |
| JsValues.ToNumIdempotent | src/components/ModelDetails.jsx:9-11 | converting a `toNum` result again (as `prettyGB(minimalVram)` does) gives the same value |
| JsValues.FirstSome | src/App.jsx:13-20 | `a ?? b ?? … ?? null` is null iff every entry is missing, else the first present entry (a present 0 included) |
| JsValues.FirstNum | src/components/ModelDetails.jsx:84-91 | a `toNum(a) ?? toNum(b) ?? …` chain is null iff no field converts, else the first field that converts; non-numeric earlier fields are skipped |
| App.TokensPerSec | src/App.jsx:13-20 | `"Tokens/s"` if present, else `tokens_per_second`, else `tokensPerSecond`; a present 0 is returned |
| App.TokensPerGpu | src/App.jsx:27 | `getTokensPerSec(gpu) \|\| 1` is never 0 |
| App.CeilDiv | src/App.jsx:29 | `Math.ceil(a / b)`: for b > 0 the least c with a <= c·b, for b < 0 the least c with c·b <= a |
| App.PlanFor | src/App.jsx:27-36 | `NVLinkCount = ceil(total / tokensPerGpu)`, `TotalVRAM = count × vramPerGpu`, `TotalTokens = count × tokensPerGpu`, the GPU's own fields unchanged; with a positive per-GPU throughput the group reaches the demand and one GPU fewer would not |
| App.NvlinkGpus | src/App.jsx:22-24 | the filtered list holds exactly the GPUs with `NVLink === true` or `nvlink === true` |
| App.FirstFit | src/App.jsx:26-39 | the loop's result is null iff no GPU in the sorted list passes the VRAM test, else the first one that does |
| App.FindNvlinkSolution | src/App.jsx:21-40 | filtering, in-place sort of the copy and the early-return loop compute `NvlinkSolution`; the caller's array is not in its frame, so it is not reordered |
| App.SortByVram | src/App.jsx:25 | the in-place sort leaves the array equal to the stable insertion sort of its old contents by `VRAM (GB) ?? 9999` |
| App.InsertAt | src/App.jsx:25 | one insertion pass places element i after every earlier element whose key is not larger and leaves the rest of the array alone |
| App.InsertSorted | src/App.jsx:25 | inserting into a list sorted by VRAM key keeps it sorted |
| App.InsertPermutes | src/App.jsx:25 | inserting adds exactly one element and loses none |
| App.InsertionSortSortedPermutes | src/App.jsx:25 | the sort result is ordered by VRAM key (missing VRAM as 9999) and is a permutation of its input |
| App.FirstFitIsLeast | src/App.jsx:25-39 | in a list sorted by VRAM key, the first GPU that passes the VRAM test has the least key of all that pass it |
| App.NvlinkSolutionNoneIff | src/App.jsx:22-39 | `findNvlinkSolution` is null iff no NVLink GPU has `VRAM \|\| 1 >= (required \|\| 0)` |
| App.NvlinkSolutionChoice | src/App.jsx:22-36 | a non-null result is an NVLink GPU of the list that passes the VRAM test, sized by PlanFor, and no NVLink GPU passing the test has a smaller VRAM sort key |
| App.WithoutType | src/App.jsx:143-144 | the filter drops exactly the alternatives of alt's GPU Type: its length is the old length minus their count, and it keeps every other alternative |
| App.WithoutTypeAppend | src/App.jsx:143-144 | the filter of a concatenation is the concatenation of the filters; with `WithoutTypeSingle` this fixes the result as the kept alternatives in their original relative order, each as often as it occurs |
| App.SwapAlt | src/App.jsx:139-151 | no envelope stays none; otherwise `recommended` becomes alt, the reasoning is kept, and the alternatives are the others in order followed by the old recommended; length = old − same-type count + 1 when a recommendation existed |
| App.SwappedAlternativesAsWritten | src/App.jsx:143-145 | as written, `concat(oldRec)` always appends one entry, the old recommendation, even when it is null or undefined |
| App.NullAlternativeAfterSwap | src/App.jsx:142-145 | promoting the only alternative of an envelope without a recommended GPU leaves the alternatives `[null]` |
| App.SwapAltPreservesCandidates | src/App.jsx:142-149 | promoting the single alternative of its GPU Type keeps the multiset of shown candidates (recommended plus alternatives), whether or not a GPU was recommended before |
| SizingEstimate.RecommendationOutcome | src/components/GpuSizingEstimate.jsx:12-66 | an error hides every outcome; "Loading…" iff no error, no rec and a model; "No GPU found." iff rec without recommended; the single GPU iff its tokens/s is truthy and covers the demand; otherwise the NVLink group when `findNvlinkSolution` is non-null, else the "No NVLink-capable GPU" message |
| SizingEstimate.AlternativesView | src/components/GpuSizingEstimate.jsx:73-95 | the list iff rec exists with a non-empty alternatives list; one item per alternative in order, keyed `GPU Type-Config`, flagged iff its tokens/s is truthy and below the demand |
| SizingEstimate.OnAlternativeClick | src/components/GpuSizingEstimate.jsx:77-79 | after a click on an item with an envelope present, its alternative is recommended, and every alternative left is an old alternative of another GPU Type or the old recommendation; no envelope stays none |
| SizingEstimate.ClickedAlternativeOutcome | src/components/GpuSizingEstimate.jsx:16-20 | clicking a listed alternative shows it as the single recommended GPU exactly when its item is not flagged (lines 84-85) and its tokens/s is truthy; a flagged alternative always leads to the NVLink fallback or its message |
| SizingEstimate.ReasoningView | src/components/GpuSizingEstimate.jsx:98 | the reasoning is shown iff rec and `rec.reasoning` are truthy |
| SizingEstimate.Render | src/components/GpuSizingEstimate.jsx:12-13 | the error line iff there is an error, the model prompt iff no model is selected |
| SizingEstimate.SizerPanel | src/App.jsx:154 | the panel rendered with the demand `users * sessionTokens` shows a single GPU only when its tokens/s covers that demand, and a shown NVLink group with positive per-GPU throughput covers it too |
| SizingEstimate.FewerUsersKeepSingleGpu | src/App.jsx:154 | with non-negative tokens per session, a GPU shown on its own for some number of users is shown on its own, unchanged, for any smaller number |
| SizingEstimate.ShownGroupCoversDemand | src/components/GpuSizingEstimate.jsx:38-64 | a shown NVLink group is an NVLink GPU of the list passing the VRAM test with the least VRAM key, and its total throughput covers the demand while one GPU fewer would not |
| ModelDetails.JsRound | src/components/ModelDetails.jsx:74 | `Math.round(x)` is an integer within half of x, halves rounded up |
| ModelDetails.JsFloor | src/components/ModelDetails.jsx:41 | `Math.floor(x)` is the integer r with r <= x < r + 1 |
| ModelDetails.EstimateKvGiB | src/components/ModelDetails.jsx:24-46 | null iff L, S, kvHeads or headDim is 0; otherwise the result × 1024³ equals `L × S × kvHeads × headDim × 2 × bytesPerElt` |
| ModelDetails.EstimateLinearInContext | src/components/ModelDetails.jsx:44-45 | scaling the context length by a non-zero factor scales the estimate by the same factor and keeps null as null |
| ModelDetails.EstimateLinearInElementSize | src/components/ModelDetails.jsx:44-45 | scaling the bytes per element by any factor scales the estimate by that factor (4 bytes give twice the 2-byte estimate), and whether there is an estimate does not depend on the element size |
| ModelDetails.LayersPreferConfig | src/components/ModelDetails.jsx:25-28 | a numeric `cfg.num_hidden_layers` is L whatever the fallbacks say |
| ModelDetails.AttnHeadsPreferConfig | src/components/ModelDetails.jsx:31-34 | a numeric `cfg.num_attention_heads` is the attention-head count whatever the fallbacks say |
| ModelDetails.DModelPrefersConfig | src/components/ModelDetails.jsx:38-39 | a numeric `cfg.hidden_size` is dModel whatever the fallbacks say |
| ModelDetails.SizesPreferConfig | src/components/ModelDetails.jsx:35-41 | with numeric attention heads and hidden size in the configuration, kvHeads and headDim do not depend on the fallbacks |
| ModelDetails.ConfigOverridesFallbacks | src/components/ModelDetails.jsx:25-39 | with numeric layers, attention heads and hidden size in the configuration, any two fallback objects give the same estimate |
| ModelDetails.EstimateDependsOnSizesOnly | src/components/ModelDetails.jsx:24-46 | two fallback objects that give the same L, kvHeads and headDim give the same estimate |
| ModelDetails.KvHeadsIgnoreFallbacks | src/components/ModelDetails.jsx:35 | a `num_key_value_heads` field in the fallbacks changes nothing: kv heads come from the configuration or the attention heads |
| ModelDetails.HeadDimFromHiddenSize | src/components/ModelDetails.jsx:40-41 | without a truthy `head_dim` and with attention heads > 0, headDim × heads <= dModel < (headDim + 1) × heads |
| ModelDetails.FloorDivBounds | src/components/ModelDetails.jsx:41 | `Math.floor(d / h) × h` lies within h below d for h > 0 |
| ModelDetails.SafeParseConfig | src/components/ModelDetails.jsx:14-22 | a falsy `config_json` gives null; a string gives its parsed value, or null when it does not parse; any other truthy value is used as it is |
| ModelDetails.KvPerSessionGb | src/components/ModelDetails.jsx:102-114 | null without a truthy parsed config or a non-zero context length; otherwise the estimate with the details' three size fields as fallbacks and `tokenSizeBytes \|\| 2` bytes |
| ModelDetails.MinimalVram | src/components/ModelDetails.jsx:84-91 | `minimal_gpu_memory_gb` if numeric, else `base_vram_gb` if numeric, else `min_vram_gb` converted |
| ModelDetails.KvApiGb | src/components/ModelDetails.jsx:93-100 | the fp16 KV size if numeric, else bf16, else fp32 |
| ModelDetails.LatencyDisplayMs | src/components/ModelDetails.jsx:72-82 | a numeric `base_latency_s` gives `Math.round(s × 1000)`; otherwise the first numeric of the three millisecond fields and the `latencyMs` prop, else null |
| ModelsChart.StringEntries | src/components/ModelsChart.jsx:16 | exactly the string entries |
| ModelsChart.StringEntriesAppend | src/components/ModelsChart.jsx:16 | the filter of a concatenation is the concatenation of the filters; with `StringEntriesSingle` this fixes the result as the strings in input order, each as often as it occurs |
| ModelsChart.StringEntriesOrder | src/components/ModelsChart.jsx:16 | two different strings come out of the filter in the order of their first occurrences in `models` |
| ModelsChart.ObjectEntries | src/components/ModelsChart.jsx:17 | exactly the truthy object and array entries (null excluded) |
| ModelsChart.ObjectEntriesAppend | src/components/ModelsChart.jsx:17 | the filter of a concatenation is the concatenation of the filters; with `ObjectEntriesSingle` this fixes the result as the object entries in input order, each as often as it occurs |
| ModelsChart.Dedup | src/components/ModelsChart.jsx:18 | `[...new Set(ids)]` holds every id once, the same ids, in order of first occurrence |
| ModelsChart.DedupKeepsFirstOccurrenceOrder | src/components/ModelsChart.jsx:16-18 | the unique ids follow the first occurrences of their strings in the `models` array |
| ModelsChart.Normalize | src/components/ModelsChart.jsx:14-20 | a non-array gives no ids and no records; otherwise the ids are the string entries without repeats, ordered by their first occurrence in `models`, and preResolved is `ObjectEntries` of `models`: the object entries in input order |
| ModelsChart.FetchChunk | src/components/ModelsChart.jsx:27-35 | a loaded record is used as it is; a failed fetch gives `{model_id: id}` |
| ModelsChart.Hydrated | src/components/ModelsChart.jsx:41-52 | one record per id, in queue order |
| ModelsChart.Hydrate | src/components/ModelsChart.jsx:22-62 | the lists passed to `setDetails` are `Snapshots(...)` up to the number of appends before the cleanup; `loading` is untouched when there are no ids, and otherwise it stays true exactly when the cleanup ran before `setLoading(false)` |
| ModelsChart.Runner | src/components/ModelsChart.jsx:44-53 | the runner appends one record per id taken from the queue until the queue is empty or the cleanup has run, so it appends `AppendedCount` records and publishes the lists of `Snapshots` after the first |
| ModelsChart.SnapshotsShape | src/components/ModelsChart.jsx:24-50 | the first published list is preResolved, the j-th is preResolved followed by the records of the first j ids, and each extends the previous one by exactly one record |
| ModelsChart.HydrationResult | src/components/ModelsChart.jsx:41-56 | the last list keeps preResolved as prefix and has one record per appended id, in id order; without cancellation its size is `preResolved.length + ids.length` |
| ModelsChart.RowOf | src/components/ModelsChart.jsx:66-83 | id is `model_id` or "(unknown)"; latency is `base_latency_s`, else `first_token_latency_s`; VRAM is the same three-field chain as the details panel's `MinimalVram` |
| ModelsChart.Rows | src/components/ModelsChart.jsx:66 | one row per detail, in the same order |
| ModelsChart.PlaceholderRow | src/components/ModelsChart.jsx:33 | a failed fetch shows as a row under the requested id with no VRAM and no latency |
| ModelsChart.VramReduce | src/components/ModelsChart.jsx:88 | the reduce is at least its start and every row VRAM, and equals the start or some row's VRAM |
| ModelsChart.MaxVram | src/components/ModelsChart.jsx:87-88 | positive; at least every row VRAM; some row's VRAM when one is positive; 1 when none is |
| ModelsChart.ShownRows | src/components/ModelsChart.jsx:101-127 | at most 20 rows, a prefix of the data, and the "Showing 20 of N" note iff rows were cut |
| XAxisTick.Split | src/components/CustomXAxisTick.jsx:5 | `split(" ")` gives at least one piece and no piece contains a space |
| XAxisTick.SplitRoundTrip | src/components/CustomXAxisTick.jsx:5 | joining the pieces with single spaces gives the text back |
| XAxisTick.NonEmptyWordsMembers | src/components/CustomXAxisTick.jsx:5-13 | the words that reach the lines are exactly the non-empty pieces of the split |
| XAxisTick.WrapText | src/components/CustomXAxisTick.jsx:4-15 | no line is empty or has a space at either end; a line longer than maxLen is one word; the lines joined by spaces are the text's words joined by spaces; no lines iff the text has no word; each line overflows with the next line's first word |
| XAxisTick.PlaceWord | src/components/CustomXAxisTick.jsx:7-12 | the callback joins the word when the trimmed join fits and otherwise closes the current line; it keeps lines well formed and greedy and the text unchanged |
| XAxisTick.JoinTrimmed | src/components/CustomXAxisTick.jsx:8-11 | `(curr + " " + word).trim()` is the word, the line, or both with one space |
| XAxisTick.JoinedShape | src/components/CustomXAxisTick.jsx:11 | joining a piece to a trimmed line gives a trimmed line that starts with the same word |
| XAxisTick.CloseLineStep | src/components/CustomXAxisTick.jsx:8-10 | closing a line that cannot take the next word keeps the lines well formed and greedy |
| XAxisTick.ExtendLineStep | src/components/CustomXAxisTick.jsx:11 | extending the current line keeps the lines well formed and greedy |
| XAxisTick.CloseLast | src/components/CustomXAxisTick.jsx:13 | pushing the last non-empty line yields well-formed greedy lines with the text of all the words |
| XAxisTick.TickLines | src/components/CustomXAxisTick.jsx:16 | the tick wraps its label at 10 characters: non-empty trimmed lines, a line over 10 characters is one word, the text of the words is kept, no lines iff no words, and each line overflows with the next line's first word |

## Left out

- The network: fetches, `/recommendation`, `/gpus` and `/models`. A fetch is a parameter `fetch: string -> Fetched`, a total function that reports success or failure.
- React state, effects, tab switching and the rendering markup. The panels are modelled as values; the effect is modelled as one call of `Hydrate`.
- ModelsChart.Hydrate: the pool of 8 concurrent runners is modelled as one `Runner`, a sequential drain with one fetch outstanding at a time. Records are appended in queue order, not completion order. The effect's cleanup is an oracle `cancelAt` that fires after a given number of appends.
- Floating point: JavaScript numbers are exact reals, so `bytes / 1024 ** 3` is exact division. `Number(string)` and `JSON.parse` are parameters, not models.
- ModelDetails.EstimateKvGiB: the byte count is a real, not a natural number, because every factor is the result of `toNum` and may be fractional.
- App.TokensPerSec: GPU fields are integers or missing. String or boolean values in a GPU row are not modelled, nor is `NaN`.
- App.NvlinkSolution: the model's `"VRAM Required (GB)"` is an integer or missing. A fractional requirement, a string value or `NaN` is not modelled.
- XAxisTick.WrapText: `trim` removes only spaces. Tabs and other whitespace are not modelled.
- XAxisTick.WrapText: line lengths are counted in characters (Unicode scalar values), while `.length` counts UTF-16 code units. A character outside the Basic Multilingual Plane, such as an emoji, counts 1 here and 2 in the browser, so such labels can be wrapped later than the browser wraps them.
- App.SwapAlt: an envelope without `alternatives` is modelled with an empty list. `concat` of an array-valued recommendation, which would flatten it, is not modelled.
- App.NvlinkSolutionChoice: the lemma states that no qualifying GPU has a smaller VRAM key. Which of several GPUs with equal keys is chosen follows from the stable sort in `NvlinkSolution`, but is not stated as a lemma.
- `toLocaleString` formatting (`prettyGB`, `fmt`), bar-width percentages, the 0.25 GiB override difference test and the `kvOverride` input state.
- `ModelDetails` rendering nothing when `details` is falsy.
- ModelSelector.jsx, ModelsTable.jsx, GpusTable.jsx, GpusChart.jsx and Footer.jsx: presentation and network wrappers, not part of this model.
- The `toNum` copy in ModelsChart.jsx (lines 135-139) is identical to the one in ModelDetails.jsx, so it is modelled once, as `JsValues.ToNum`.

## Findings

| source | as written | input that shows it | evidently intended | confidence | as-written member | corrected member |
|---|---|---|---|---|---|---|
| src/App.jsx:142-145 | `prev.alternatives.filter(...).concat(oldRec)` appends `oldRec` even when `prev.recommended` is null or undefined. GpuSizingEstimate.jsx:73-82 lists alternatives, and so lets them be clicked, whenever the list is non-empty, including when there is no recommendation. | `rec = {recommended: null, alternatives: [g]}`, then a click on g: the alternatives become `[null]`, and the next render reads `alt["GPU Type"]` of null | append the old recommendation only when there is one | not executed | App.SwappedAlternativesAsWritten, App.NullAlternativeAfterSwap | App.SwapAlt, App.SwapAltPreservesCandidates |
