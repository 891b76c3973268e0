/** GpuSizingEstimate.jsx: which recommendation the panel shows (a single
    GPU, the NVLink fallback group, or a status message), which alternatives
    it lists and flags, and whether it shows the server's reasoning. */
module SizingEstimate {
  import opened JsValues
  import opened App

  /** What the Recommendation column shows below the error line. */
  datatype Outcome =
    | NoOutcome                      // an error is shown, or no model is selected
    | Loading                        // "Loading…"
    | NoGpuFound                     // "No GPU found."
    | SingleGpu(gpu: Gpu)            // the recommended GPU on its own
    | NvlinkGroup(plan: NvlinkPlan)  // the NVLink fallback group
    | NoNvlinkGpu                    // "No NVLink-capable GPU found for your requirements!"

  /** `getTokensPerSec(g) && totalTokensPerSecond <= getTokensPerSec(g)` */
  predicate SingleGpuSuffices(g: Gpu, total: int) {
    var t := TokensPerSec(g);
    t.Some? && t.value != 0 && total <= t.value
  }

  /** `getTokensPerSec(alt) && totalTokensPerSecond > getTokensPerSec(alt)`:
      the "Does not meet context length requirement" flag. */
  predicate FallsShort(g: Gpu, total: int) {
    var t := TokensPerSec(g);
    t.Some? && t.value != 0 && total > t.value
  }

  /** The Recommendation column. `error` and `model` are falsy when empty;
      `required` is the model's "VRAM Required (GB)" handed to
      findNvlinkSolution. */
  function RecommendationOutcome(error: string, model: string, rec: Option<Rec>, gpus: seq<Gpu>,
                                 required: Option<int>, total: int): (o: Outcome)
    ensures error != "" ==> o == NoOutcome
    ensures o == Loading <==> error == "" && rec.None? && model != ""
    ensures o == NoGpuFound <==> error == "" && rec.Some? && rec.value.recommended.None? && model != ""
    ensures o.SingleGpu? <==> error == "" && rec.Some? && rec.value.recommended.Some? && model != ""
                              && SingleGpuSuffices(rec.value.recommended.value, total)
    ensures o.SingleGpu? ==> o.gpu == rec.value.recommended.value
    ensures (o.NvlinkGroup? || o == NoNvlinkGpu)
            <==> error == "" && rec.Some? && rec.value.recommended.Some? && model != ""
                 && !SingleGpuSuffices(rec.value.recommended.value, total)
    ensures o.NvlinkGroup? ==> NvlinkSolution(gpus, required, total) == Some(o.plan)
    ensures o == NoNvlinkGpu ==> NvlinkSolution(gpus, required, total).None?
  {
    if error != "" || model == "" then NoOutcome
    else if rec.None? then Loading
    else if rec.value.recommended.None? then NoGpuFound
    else if SingleGpuSuffices(rec.value.recommended.value, total) then SingleGpu(rec.value.recommended.value)
    else
      match NvlinkSolution(gpus, required, total)
      case Some(p) => NvlinkGroup(p)
      case None => NoNvlinkGpu
  }

  /** One entry of the Alternatives list: the alternative its button passes
      to swapAlt, its React key and its shortfall flag. */
  datatype AltItem = AltItem(alt: Gpu, key: string, fallsShort: bool)

  datatype AltView = NoAlternatives | AltList(items: seq<AltItem>)

  /** `` `${alt["GPU Type"]}-${alt.Config}` `` */
  function ItemKey(g: Gpu): string {
    g.gpuType + "-" + g.config
  }

  /** The Alternatives column: the list when there is an envelope with at
      least one alternative, else "No alternatives available." */
  function AlternativesView(rec: Option<Rec>, total: int): (v: AltView)
    ensures v.AltList? <==> rec.Some? && |rec.value.alternatives| > 0
    ensures v.AltList? ==> |v.items| == |rec.value.alternatives|
    ensures v.AltList? ==> forall i :: 0 <= i < |v.items| ==>
              && v.items[i].alt == rec.value.alternatives[i]
              && v.items[i].key == rec.value.alternatives[i].gpuType + "-" + rec.value.alternatives[i].config
              && (v.items[i].fallsShort <==> TokensPerSec(rec.value.alternatives[i]).Some?
                                              && TokensPerSec(rec.value.alternatives[i]).value != 0
                                              && total > TokensPerSec(rec.value.alternatives[i]).value)
  {
    if rec.Some? && |rec.value.alternatives| > 0 then
      var alts := rec.value.alternatives;
      AltList(seq(|alts|, i requires 0 <= i < |alts| => AltItem(alts[i], ItemKey(alts[i]), FallsShort(alts[i], total))))
    else NoAlternatives
  }

  /** The button of an item: `swapAlt(alt)` applied to the current envelope.
      The clicked alternative becomes recommended, and what stays in the list
      is an old alternative of another GPU Type or the old recommendation. */
  function OnAlternativeClick(rec: Option<Rec>, item: AltItem): (r: Option<Rec>)
    ensures rec.None? ==> r.None?
    ensures rec.Some? ==> r.Some? && r.value.recommended == Some(item.alt)
    ensures rec.Some? ==> forall g :: g in r.value.alternatives ==>
              (g in rec.value.alternatives && g.gpuType != item.alt.gpuType) || rec.value.recommended == Some(g)
  {
    SwapAlt(rec, item.alt)
  }

  /** The Reasoning section, shown when `rec && rec.reasoning`. */
  function ReasoningView(rec: Option<Rec>): (r: Option<string>)
    ensures r.Some? <==> rec.Some? && rec.value.reasoning != ""
    ensures r.Some? ==> r.value == rec.value.reasoning
  {
    if rec.Some? && rec.value.reasoning != "" then Some(rec.value.reasoning) else None
  }

  datatype Panel = Panel(
    errorText: Option<string>,  // the red error line
    selectPrompt: bool,         // "Please select a model to see recommendations."
    outcome: Outcome,
    alternatives: AltView,
    reasoning: Option<string>)

  /** The whole panel. The error line and the model prompt are independent of
      each other: both show when there is an error and no model. */
  function Render(error: string, model: string, rec: Option<Rec>, gpus: seq<Gpu>,
                  required: Option<int>, total: int): (p: Panel)
    ensures p.errorText.Some? <==> error != ""
    ensures p.selectPrompt <==> model == ""
  {
    Panel(if error != "" then Some(error) else None,
          model == "",
          RecommendationOutcome(error, model, rec, gpus, required, total),
          AlternativesView(rec, total),
          ReasoningView(rec))
  }

  /** Clicking a listed alternative shows it as the single recommended GPU
      exactly when its item is not flagged and its throughput is truthy: a
      flagged alternative always leads to the NVLink fallback or its
      message. */
  lemma ClickedAlternativeOutcome(rec: Option<Rec>, total: int, i: int, model: string, gpus: seq<Gpu>,
                                  required: Option<int>)
    requires model != ""
    requires AlternativesView(rec, total).AltList? && 0 <= i < |AlternativesView(rec, total).items|
    ensures var item := AlternativesView(rec, total).items[i];
      var o := RecommendationOutcome("", model, OnAlternativeClick(rec, item), gpus, required, total);
      && (o.SingleGpu? <==> !item.fallsShort && TokensPerSec(item.alt).Some? && TokensPerSec(item.alt).value != 0)
      && (o.SingleGpu? ==> o.gpu == item.alt)
  {
    var item := AlternativesView(rec, total).items[i];
    assert item.alt == rec.value.alternatives[i];
  }

  /** Whatever group the panel shows meets the demand: it is an NVLink GPU of
      the list that passes the VRAM test, no such GPU has a smaller VRAM key,
      and with a positive per-GPU throughput the group's total throughput
      reaches the demand while one GPU fewer would not. */
  lemma ShownGroupCoversDemand(error: string, model: string, rec: Option<Rec>, gpus: seq<Gpu>,
                               required: Option<int>, total: int)
    requires RecommendationOutcome(error, model, rec, gpus, required, total).NvlinkGroup?
    ensures var p := RecommendationOutcome(error, model, rec, gpus, required, total).plan;
      && p.gpu in gpus && IsNvlink(p.gpu) && Meets(p.gpu, required)
      && (forall g :: g in gpus && IsNvlink(g) && Meets(g, required) ==> SortKey(p.gpu) <= SortKey(g))
      && (TokensPerGpu(p.gpu) > 0 ==> total <= p.totalTokens && p.totalTokens - TokensPerGpu(p.gpu) < total)
  {
    NvlinkSolutionChoice(gpus, required, total);
  }

  /** The GPU Sizing Estimate of the Inference Sizer tab: the panel for the
      demand `totalTokensPerSecond = users * sessionTokens`. A single GPU is
      shown only when it covers that demand, and a shown NVLink group covers
      it too. */
  function SizerPanel(error: string, model: string, rec: Option<Rec>, gpus: seq<Gpu>, required: Option<int>,
                      users: int, sessionTokens: int): (p: Panel)
    ensures p.outcome.SingleGpu? ==> TokensPerSec(p.outcome.gpu).Some?
                                     && users * sessionTokens <= TokensPerSec(p.outcome.gpu).value
    ensures p.outcome.NvlinkGroup? && TokensPerGpu(p.outcome.plan.gpu) > 0
            ==> users * sessionTokens <= p.outcome.plan.totalTokens
  {
    var total := TotalTokensPerSecond(users, sessionTokens);
    var p := Render(error, model, rec, gpus, required, total);
    if p.outcome.NvlinkGroup? then
      ShownGroupCoversDemand(error, model, rec, gpus, required, total);
      p
    else p
  }

  /** More users never bring back the single-GPU recommendation: with a
      non-negative per-session demand, a GPU shown on its own for some number
      of users is shown on its own for any smaller number too. */
  lemma FewerUsersKeepSingleGpu(error: string, model: string, rec: Option<Rec>, gpus: seq<Gpu>,
                                required: Option<int>, users: int, moreUsers: int, sessionTokens: int)
    requires 0 <= sessionTokens && users <= moreUsers
    requires SizerPanel(error, model, rec, gpus, required, moreUsers, sessionTokens).outcome.SingleGpu?
    ensures SizerPanel(error, model, rec, gpus, required, users, sessionTokens).outcome
            == SizerPanel(error, model, rec, gpus, required, moreUsers, sessionTokens).outcome
  {
    MulMonotoneInt(users, moreUsers, sessionTokens);
  }

  lemma MulMonotoneInt(a: int, b: int, c: int)
    requires a <= b && 0 <= c
    ensures a * c <= b * c
  {
  }
}
