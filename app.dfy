/** The client-side logic of App.jsx: reading a GPU's throughput, the NVLink
    fallback that sizes a group of identical NVLink GPUs when the remotely
    recommended GPU is too slow, and promoting an alternative to the
    recommended slot. */
module App {
  import opened JsValues

  /** A GPU row as the /gpus and /recommendation endpoints return it. The two
      flags hold when the field `NVLink` or `nvlink` is the boolean `true`
      (the source compares with `=== true`, so a truthy string does not count). */
  datatype Gpu = Gpu(
    gpuType: string,          // "GPU Type"
    config: string,           // "Config"
    vram: Option<int>,        // "VRAM (GB)"
    tokensSlash: Option<int>, // "Tokens/s"
    tokensSnake: Option<int>, // tokens_per_second
    tokensCamel: Option<int>, // tokensPerSecond
    nvLinkFlag: bool,         // NVLink === true
    nvlinkFlag: bool)         // nvlink === true

  /** The sort key given to a GPU whose VRAM is missing. */
  const MISSING_VRAM_KEY := 9999

  /** `getTokensPerSec`: the first of the three throughput fields that is
      present. A present zero is returned, not skipped. */
  function TokensPerSec(g: Gpu): (r: Option<int>)
    ensures g.tokensSlash.Some? ==> r == g.tokensSlash
    ensures g.tokensSlash.None? && g.tokensSnake.Some? ==> r == g.tokensSnake
    ensures g.tokensSlash.None? && g.tokensSnake.None? ==> r == g.tokensCamel
  {
    var fields := [g.tokensSlash, g.tokensSnake, g.tokensCamel];
    assert fields[0] == g.tokensSlash && fields[1] == g.tokensSnake && fields[2] == g.tokensCamel;
    FirstSome(fields)
  }

  /** `totalTokensPerSecond = users * sessionTokens` */
  function TotalTokensPerSecond(users: int, sessionTokens: int): int {
    users * sessionTokens
  }

  predicate IsNvlink(g: Gpu) {
    g.nvLinkFlag || g.nvlinkFlag
  }

  /** `getTokensPerSec(gpu) || 1`: a missing or zero throughput counts as 1. */
  function TokensPerGpu(g: Gpu): (t: int)
    ensures t != 0
  {
    var tokens := TokensPerSec(g);
    if tokens.Some? && tokens.value != 0 then tokens.value else 1
  }

  /** `gpu["VRAM (GB)"] || 1`: a missing or zero VRAM counts as 1. */
  function VramPerGpu(g: Gpu): int {
    if g.vram.Some? && g.vram.value != 0 then g.vram.value else 1
  }

  /** `gpu["VRAM (GB)"] ?? 9999`: unlike VramPerGpu, a present zero is kept. */
  function SortKey(g: Gpu): int {
    if g.vram.Some? then g.vram.value else MISSING_VRAM_KEY
  }

  /** `modelDetails?.["VRAM Required (GB)"] || 0`, where `required` is that
      field, absent when the details or the field are missing. */
  function RequiredVram(required: Option<int>): int {
    if required.Some? then required.value else 0
  }

  /** The VRAM test of the NVLink loop. */
  predicate Meets(g: Gpu, required: Option<int>) {
    VramPerGpu(g) >= RequiredVram(required)
  }

  /** `Math.ceil(a / b)` on integers: the least c with c * b >= a when b is
      positive (and the least c with c * b <= a when b is negative). */
  function CeilDiv(a: int, b: int): (c: int)
    requires b != 0
    ensures b > 0 ==> (c - 1) * b < a <= c * b
    ensures b < 0 ==> c * b <= a < (c - 1) * b
  {
    if b > 0 then
      var q := (-a) / b;
      assert q * b <= -a < q * b + b;
      -q
    else
      var q := a / (-b);
      assert q * (-b) <= a < q * (-b) + (-b);
      -q
  }

  /** The object `findNvlinkSolution` returns: the chosen GPU's fields with
      `NVLinkCount`, `TotalVRAM` and `TotalTokens` added. */
  datatype NvlinkPlan = NvlinkPlan(gpu: Gpu, count: int, totalVram: int, totalTokens: int)

  /** The group sized for one GPU: enough copies to reach the throughput, and
      the totals of that many copies. */
  function PlanFor(g: Gpu, total: int): (p: NvlinkPlan)
    ensures p.gpu == g
    ensures p.count == CeilDiv(total, TokensPerGpu(g))
    ensures p.totalVram == p.count * VramPerGpu(g)
    ensures p.totalTokens == p.count * TokensPerGpu(g)
    ensures TokensPerGpu(g) > 0 ==> total <= p.totalTokens && p.totalTokens - TokensPerGpu(g) < total
  {
    var tokensPerGpu := TokensPerGpu(g);
    var count := CeilDiv(total, tokensPerGpu);
    assert (count - 1) * tokensPerGpu == count * tokensPerGpu - tokensPerGpu;
    NvlinkPlan(g, count, count * VramPerGpu(g), count * tokensPerGpu)
  }

  /** `gpus.filter(g => g.NVLink === true || g.nvlink === true)` */
  function NvlinkGpus(gpus: seq<Gpu>): (r: seq<Gpu>)
    ensures forall g :: g in r <==> g in gpus && IsNvlink(g)
  {
    if gpus == [] then []
    else (if IsNvlink(gpus[0]) then [gpus[0]] else []) + NvlinkGpus(gpus[1..])
  }

  predicate SortedByKey(s: seq<Gpu>) {
    forall i, j :: 0 <= i < j < |s| ==> SortKey(s[i]) <= SortKey(s[j])
  }

  /** Inserts x after every element whose key is not larger than its own, so
      equal keys keep their order (Array.prototype.sort is stable). */
  function Insert(s: seq<Gpu>, x: Gpu): seq<Gpu> {
    if s == [] || SortKey(s[|s| - 1]) <= SortKey(x) then s + [x]
    else Insert(s[..|s| - 1], x) + [s[|s| - 1]]
  }

  /** The stable sort by SortKey that `nvlinkGpus.sort(...)` performs. */
  function InsertionSort(s: seq<Gpu>): seq<Gpu> {
    if s == [] then [] else Insert(InsertionSort(s[..|s| - 1]), s[|s| - 1])
  }

  /** The first GPU of s that passes the VRAM test. */
  function FirstFit(s: seq<Gpu>, required: Option<int>): (r: Option<Gpu>)
    ensures r.None? <==> forall i :: 0 <= i < |s| ==> !Meets(s[i], required)
    ensures r.Some? ==> exists i :: 0 <= i < |s| && s[i] == r.value && Meets(s[i], required)
                                   && forall j :: 0 <= j < i ==> !Meets(s[j], required)
  {
    if s == [] then None
    else if Meets(s[0], required) then Some(s[0])
    else
      var rest := FirstFit(s[1..], required);
      assert forall i :: 1 <= i < |s| ==> s[i] == s[1..][i - 1];
      rest
  }

  /** What `findNvlinkSolution(gpus, modelDetails, totalTokensPerSecond)` returns. */
  function NvlinkSolution(gpus: seq<Gpu>, required: Option<int>, total: int): Option<NvlinkPlan> {
    match FirstFit(InsertionSort(NvlinkGpus(gpus)), required)
    case None => None
    case Some(g) => Some(PlanFor(g, total))
  }

  /** `findNvlinkSolution`: filters the NVLink GPUs into a new array, sorts
      that array in place by VRAM and returns the group for the first one
      that passes the VRAM test. The caller's array is only read. */
  method FindNvlinkSolution(gpus: array<Gpu>, required: Option<int>, total: int)
    returns (r: Option<NvlinkPlan>)
    ensures r == NvlinkSolution(gpus[..], required, total)
  {
    var filtered := NvlinkGpus(gpus[..]);
    var nvlinkGpus := new Gpu[|filtered|](i requires 0 <= i < |filtered| => filtered[i]);
    assert nvlinkGpus[..] == filtered;
    SortByVram(nvlinkGpus);
    ghost var sorted := nvlinkGpus[..];
    for i := 0 to nvlinkGpus.Length
      invariant nvlinkGpus[..] == sorted
      invariant FirstFit(sorted, required) == FirstFit(sorted[i..], required)
    {
      var gpu := nvlinkGpus[i];
      var tokensPerGpu := TokensPerGpu(gpu);
      var vramPerGpu := VramPerGpu(gpu);
      var numNeeded := CeilDiv(total, tokensPerGpu);
      FirstFitStep(sorted, i, required);
      if vramPerGpu >= RequiredVram(required) {
        var plan := NvlinkPlan(gpu, numNeeded, numNeeded * vramPerGpu, numNeeded * tokensPerGpu);
        PlanForFields(gpu, total, plan);
        return Some(plan);
      }
    }
    return None;
  }

  /** FirstFit on a suffix looks at its head first. */
  lemma FirstFitStep(s: seq<Gpu>, i: int, required: Option<int>)
    requires 0 <= i < |s|
    ensures FirstFit(s[i..], required)
            == if Meets(s[i], required) then Some(s[i]) else FirstFit(s[i + 1..], required)
  {
    assert s[i..][1..] == s[i + 1..];
  }

  /** A plan with PlanFor's fields is PlanFor's plan. */
  lemma PlanForFields(g: Gpu, total: int, p: NvlinkPlan)
    requires TokensPerGpu(g) != 0
    requires p.gpu == g && p.count == CeilDiv(total, TokensPerGpu(g))
    requires p.totalVram == p.count * VramPerGpu(g) && p.totalTokens == p.count * TokensPerGpu(g)
    ensures PlanFor(g, total) == p
  {
  }

  /** Stable in-place insertion sort of the array by SortKey. */
  method SortByVram(a: array<Gpu>)
    modifies a
    ensures a[..] == InsertionSort(old(a[..]))
  {
    ghost var s := a[..];
    var i := 0;
    while i < a.Length
      invariant 0 <= i <= a.Length
      invariant a[..i] == InsertionSort(s[..i])
      invariant a[i..] == s[i..]
    {
      assert a[i] == s[i] && a[i + 1..] == s[i + 1..] by {
        assert a[i..][0] == a[i] && a[i..][1..] == a[i + 1..];
        assert s[i..][0] == s[i] && s[i..][1..] == s[i + 1..];
      }
      InsertAt(a, i);
      assert s[..i + 1][..i] == s[..i];
      i := i + 1;
    }
    assert a[..] == a[..a.Length];
    assert s == s[..a.Length];
  }

  /** One pass of insertion sort: a[i] moves left past every larger key. */
  method InsertAt(a: array<Gpu>, i: int)
    requires 0 <= i < a.Length
    modifies a
    ensures a[..i + 1] == Insert(old(a[..i]), old(a[i]))
    ensures a[i + 1..] == old(a[i + 1..])
  {
    ghost var s := a[..];
    var x := a[i];
    var j := i;
    while j > 0 && SortKey(a[j - 1]) > SortKey(x)
      invariant 0 <= j <= i
      invariant forall k :: 0 <= k < j ==> a[k] == s[k]
      invariant forall k :: j < k <= i ==> a[k] == s[k - 1]
      invariant forall k :: i < k < a.Length ==> a[k] == s[k]
      invariant forall k :: j <= k < i ==> SortKey(s[k]) > SortKey(x)
    {
      a[j] := a[j - 1];
      j := j - 1;
    }
    a[j] := x;
    ShiftedIsInsert(s, a[..], i, j, x);
  }

  /** The array after the shifting loop: the prefix with x placed at j. */
  lemma ShiftedIsInsert(s: seq<Gpu>, t: seq<Gpu>, i: int, j: int, x: Gpu)
    requires 0 <= j <= i < |s| == |t|
    requires forall k :: 0 <= k < j ==> t[k] == s[k]
    requires t[j] == x
    requires forall k :: j < k <= i ==> t[k] == s[k - 1]
    requires forall k :: i < k < |t| ==> t[k] == s[k]
    requires forall k :: j <= k < i ==> SortKey(s[k]) > SortKey(x)
    requires j == 0 || SortKey(s[j - 1]) <= SortKey(x)
    ensures t[..i + 1] == Insert(s[..i], x)
    ensures t[i + 1..] == s[i + 1..]
  {
    InsertSplitPrefix(s, i, j, x);
    ShiftedSlices(s, t, i, j, x);
  }

  /** Insert into the prefix s[..i] lands at j. */
  lemma InsertSplitPrefix(s: seq<Gpu>, i: int, j: int, x: Gpu)
    requires 0 <= j <= i <= |s|
    requires forall k :: j <= k < i ==> SortKey(s[k]) > SortKey(x)
    requires j == 0 || SortKey(s[j - 1]) <= SortKey(x)
    ensures Insert(s[..i], x) == s[..j] + [x] + s[j..i]
  {
    var prefix := s[..i];
    assert prefix[..j] == s[..j] && prefix[j..] == s[j..i];
    forall k | j <= k < |prefix|
      ensures SortKey(prefix[k]) > SortKey(x)
    {
      assert prefix[k] == s[k];
    }
    InsertSplit(prefix, x, j);
  }

  /** The shifted array, read as slices of the original. */
  lemma ShiftedSlices(s: seq<Gpu>, t: seq<Gpu>, i: int, j: int, x: Gpu)
    requires 0 <= j <= i < |s| == |t|
    requires forall k :: 0 <= k < j ==> t[k] == s[k]
    requires t[j] == x
    requires forall k :: j < k <= i ==> t[k] == s[k - 1]
    requires forall k :: i < k < |t| ==> t[k] == s[k]
    ensures t[..i + 1] == s[..j] + [x] + s[j..i]
    ensures t[i + 1..] == s[i + 1..]
  {
    var r := s[..j] + [x] + s[j..i];
    forall k | 0 <= k <= i
      ensures t[k] == r[k]
    {
      if k < j {
        assert r[k] == s[k];
      } else if k > j {
        assert r[k] == s[k - 1];
      }
    }
    assert t[..i + 1] == r;
    assert t[i + 1..] == s[i + 1..];
  }

  /** Insert puts x just after the last element whose key is not larger. */
  lemma {:induction false} InsertSplit(s: seq<Gpu>, x: Gpu, j: int)
    requires 0 <= j <= |s|
    requires forall k :: j <= k < |s| ==> SortKey(s[k]) > SortKey(x)
    requires j == 0 || SortKey(s[j - 1]) <= SortKey(x)
    ensures Insert(s, x) == s[..j] + [x] + s[j..]
    decreases |s|
  {
    if j < |s| {
      var n := |s|;
      InsertSplit(s[..n - 1], x, j);
      assert s[..n - 1][..j] == s[..j];
      assert s[..j] + [x] + s[j..n - 1] + [s[n - 1]] == s[..j] + [x] + s[j..];
    }
  }

  /** Insert adds exactly x. */
  lemma {:induction false} InsertPermutes(s: seq<Gpu>, x: Gpu)
    ensures multiset(Insert(s, x)) == multiset(s) + multiset{x}
  {
    if !(s == [] || SortKey(s[|s| - 1]) <= SortKey(x)) {
      var init, last := s[..|s| - 1], s[|s| - 1];
      assert s == init + [last];
      InsertPermutes(init, x);
    }
  }

  /** Insert keeps a sorted sequence sorted. */
  lemma {:induction false} InsertSorted(s: seq<Gpu>, x: Gpu)
    requires SortedByKey(s)
    ensures SortedByKey(Insert(s, x))
  {
    if !(s == [] || SortKey(s[|s| - 1]) <= SortKey(x)) {
      var init, last := s[..|s| - 1], s[|s| - 1];
      assert s == init + [last];
      assert SortedByKey(init);
      InsertSorted(init, x);
      forall y | y in init
        ensures SortKey(y) <= SortKey(last)
      {
        var k :| 0 <= k < |init| && init[k] == y;
        assert s[k] == y;
      }
      InsertBounded(init, x, last);
      SortedSnoc(Insert(init, x), last);
    }
  }

  /** Insert adds no key above a bound that x and all of s respect. */
  lemma InsertBounded(s: seq<Gpu>, x: Gpu, last: Gpu)
    requires SortKey(x) <= SortKey(last)
    requires forall y :: y in s ==> SortKey(y) <= SortKey(last)
    ensures forall y :: y in Insert(s, x) ==> SortKey(y) <= SortKey(last)
  {
    InsertPermutes(s, x);
    forall y | y in Insert(s, x)
      ensures SortKey(y) <= SortKey(last)
    {
      assert y in multiset(s) + multiset{x};
      if y != x {
        assert y in s;
      }
    }
  }

  /** A sorted sequence stays sorted when an element whose key bounds all of
      it is appended. */
  lemma SortedSnoc(s: seq<Gpu>, last: Gpu)
    requires SortedByKey(s)
    requires forall y :: y in s ==> SortKey(y) <= SortKey(last)
    ensures SortedByKey(s + [last])
  {
    var r := s + [last];
    forall i, j | 0 <= i < j < |r|
      ensures SortKey(r[i]) <= SortKey(r[j])
    {
      if j < |s| {
        assert r[i] == s[i] && r[j] == s[j];
      } else {
        assert r[i] == s[i] && s[i] in s;
      }
    }
  }

  /** The sort orders by VRAM key and loses or adds no GPU. */
  lemma {:induction false} InsertionSortSortedPermutes(s: seq<Gpu>)
    ensures SortedByKey(InsertionSort(s))
    ensures multiset(InsertionSort(s)) == multiset(s)
  {
    if s != [] {
      var init, last := s[..|s| - 1], s[|s| - 1];
      assert s == init + [last];
      InsertionSortSortedPermutes(init);
      InsertSorted(InsertionSort(init), last);
      InsertPermutes(InsertionSort(init), last);
    }
  }

  /** findNvlinkSolution returns null exactly when no NVLink GPU passes the
      VRAM test. */
  lemma NvlinkSolutionNoneIff(gpus: seq<Gpu>, required: Option<int>, total: int)
    ensures NvlinkSolution(gpus, required, total).None?
            <==> forall g :: g in gpus && IsNvlink(g) ==> !Meets(g, required)
  {
    var nv := NvlinkGpus(gpus);
    var sorted := InsertionSort(nv);
    InsertionSortSortedPermutes(nv);
    if FirstFit(sorted, required).None? {
      forall g | g in gpus && IsNvlink(g)
        ensures !Meets(g, required)
      {
        assert g in multiset(sorted);
        var k :| 0 <= k < |sorted| && sorted[k] == g;
      }
    } else {
      var g := FirstFit(sorted, required).value;
      assert g in multiset(nv);
    }
  }

  /** A non-null result is an NVLink GPU of the list that passes the VRAM
      test, sized by PlanFor, and no NVLink GPU that passes the test has a
      smaller VRAM sort key. */
  lemma NvlinkSolutionChoice(gpus: seq<Gpu>, required: Option<int>, total: int)
    requires NvlinkSolution(gpus, required, total).Some?
    ensures var p := NvlinkSolution(gpus, required, total).value;
      && p.gpu in gpus && IsNvlink(p.gpu) && Meets(p.gpu, required)
      && p == PlanFor(p.gpu, total)
      && forall g :: g in gpus && IsNvlink(g) && Meets(g, required) ==> SortKey(p.gpu) <= SortKey(g)
  {
    var nv := NvlinkGpus(gpus);
    var sorted := InsertionSort(nv);
    InsertionSortSortedPermutes(nv);
    var chosen := FirstFit(sorted, required).value;
    FirstFitIsLeast(sorted, required);
    assert chosen in multiset(nv);
    forall g | g in gpus && IsNvlink(g) && Meets(g, required)
      ensures SortKey(chosen) <= SortKey(g)
    {
      assert g in multiset(sorted);
    }
  }

  /** In a sequence sorted by key, the first GPU that passes the VRAM test
      has the least key among those that pass it. */
  lemma FirstFitIsLeast(sorted: seq<Gpu>, required: Option<int>)
    requires SortedByKey(sorted)
    requires FirstFit(sorted, required).Some?
    ensures forall g :: g in sorted && Meets(g, required) ==> SortKey(FirstFit(sorted, required).value) <= SortKey(g)
  {
    var chosen := FirstFit(sorted, required).value;
    var i :| 0 <= i < |sorted| && sorted[i] == chosen && Meets(sorted[i], required)
             && forall j :: 0 <= j < i ==> !Meets(sorted[j], required);
    forall g | g in sorted && Meets(g, required)
      ensures SortKey(chosen) <= SortKey(g)
    {
      var k :| 0 <= k < |sorted| && sorted[k] == g;
      assert i <= k;
    }
  }

  /** The recommendation envelope returned by /recommendation. A missing
      `alternatives` list is modelled as empty and a missing `reasoning` as "". */
  datatype Rec = Rec(recommended: Option<Gpu>, alternatives: seq<Gpu>, reasoning: string)

  /** Number of entries of alts with the given "GPU Type". */
  function CountType(alts: seq<Gpu>, t: string): nat {
    if alts == [] then 0 else (if alts[0].gpuType == t then 1 else 0) + CountType(alts[1..], t)
  }

  /** `alts.filter(a => a["GPU Type"] !== t)` */
  function WithoutType(alts: seq<Gpu>, t: string): (r: seq<Gpu>)
    ensures |r| == |alts| - CountType(alts, t)
    ensures forall g :: g in r <==> g in alts && g.gpuType != t
  {
    if alts == [] then []
    else (if alts[0].gpuType != t then [alts[0]] else []) + WithoutType(alts[1..], t)
  }

  /** The filter works alternative by alternative: the kept ones stay in
      their relative order, each as often as it occurs. */
  lemma {:induction false} WithoutTypeAppend(a: seq<Gpu>, b: seq<Gpu>, t: string)
    ensures WithoutType(a + b, t) == WithoutType(a, t) + WithoutType(b, t)
  {
    if a != [] {
      assert (a + b)[0] == a[0] && (a + b)[1..] == a[1..] + b;
      WithoutTypeAppend(a[1..], b, t);
    } else {
      assert a + b == b;
    }
  }

  lemma WithoutTypeSingle(g: Gpu, t: string)
    ensures WithoutType([g], t) == if g.gpuType != t then [g] else []
  {
  }

  function OptionToSeq(o: Option<Gpu>): seq<Gpu> {
    if o.Some? then [o.value] else []
  }

  /** The candidates an envelope shows: the recommended GPU, then the alternatives. */
  function Candidates(rec: Rec): seq<Gpu> {
    OptionToSeq(rec.recommended) + rec.alternatives
  }

  /** `swapAlt(alt)` as the state updater `setRec(prev => ...)`: no envelope
      stays no envelope; otherwise `alt` becomes recommended, every
      alternative of alt's GPU Type is dropped (the others keep their order)
      and the old recommended GPU is appended last, whether or not alt was an
      alternative. A missing old recommendation is not appended (see
      SwappedAlternativesAsWritten). The reasoning is kept. */
  function SwapAlt(prev: Option<Rec>, alt: Gpu): (r: Option<Rec>)
    ensures prev.None? ==> r.None?
    ensures prev.Some? ==> r.Some? && r.value.recommended == Some(alt)
    ensures prev.Some? ==> r.Some? && r.value.reasoning == prev.value.reasoning
    ensures prev.Some? ==> (r.Some? && r.value.alternatives
      == WithoutType(prev.value.alternatives, alt.gpuType) + OptionToSeq(prev.value.recommended))
    ensures prev.Some? ==> (r.Some? && |r.value.alternatives|
      == |prev.value.alternatives| - CountType(prev.value.alternatives, alt.gpuType)
         + (if prev.value.recommended.Some? then 1 else 0))
  {
    match prev
    case None => None
    case Some(p) =>
      var newAlts := WithoutType(p.alternatives, alt.gpuType) + OptionToSeq(p.recommended);
      Some(p.(recommended := Some(alt), alternatives := newAlts))
  }

  /** The alternatives list exactly as `filter(...).concat(oldRec)` builds it,
      where a null or undefined `oldRec` becomes an entry of its own. */
  function SwappedAlternativesAsWritten(prev: Rec, alt: Gpu): (r: seq<Option<Gpu>>)
    ensures |r| == |WithoutType(prev.alternatives, alt.gpuType)| + 1
    ensures r[|r| - 1] == prev.recommended
  {
    var kept := WithoutType(prev.alternatives, alt.gpuType);
    seq(|kept|, i requires 0 <= i < |kept| => Some(kept[i])) + [prev.recommended]
  }

  /** As written, promoting an alternative of an envelope without a
      recommended GPU leaves a null entry at the end of the alternatives,
      whose `alt["GPU Type"]` the next render then reads. */
  lemma NullAlternativeAfterSwap(g: Gpu)
    ensures SwappedAlternativesAsWritten(Rec(None, [g], ""), g) == [None]
  {
    assert WithoutType([g], g.gpuType) == [];
  }

  lemma {:induction false} WithoutTypeUnique(alts: seq<Gpu>, alt: Gpu)
    requires alt in alts && CountType(alts, alt.gpuType) == 1
    ensures multiset(WithoutType(alts, alt.gpuType)) + multiset{alt} == multiset(alts)
  {
    var t := alt.gpuType;
    assert alts == [alts[0]] + alts[1..];
    if alts[0].gpuType == t {
      assert CountType(alts[1..], t) == 0;
      assert forall g :: g in alts[1..] ==> g.gpuType != t by {
        CountZeroNoType(alts[1..], t);
      }
      WithoutTypeNoneRemoved(alts[1..], t);
      assert alts[0] == alt;
    } else {
      WithoutTypeUnique(alts[1..], alt);
    }
  }

  lemma {:induction false} CountZeroNoType(alts: seq<Gpu>, t: string)
    requires CountType(alts, t) == 0
    ensures forall g :: g in alts ==> g.gpuType != t
  {
    if alts != [] {
      CountZeroNoType(alts[1..], t);
      assert forall g :: g in alts ==> g == alts[0] || g in alts[1..];
    }
  }

  lemma {:induction false} WithoutTypeNoneRemoved(alts: seq<Gpu>, t: string)
    requires forall g :: g in alts ==> g.gpuType != t
    ensures WithoutType(alts, t) == alts
  {
    if alts != [] {
      WithoutTypeNoneRemoved(alts[1..], t);
      assert alts == [alts[0]] + alts[1..];
    }
  }

  /** Promoting the one alternative of its GPU Type neither creates nor loses
      a candidate: the candidates before and after are the same multiset,
      also when no GPU was recommended, where the code as written adds a null
      alternative (NullAlternativeAfterSwap). */
  lemma SwapAltPreservesCandidates(rec: Rec, alt: Gpu)
    requires alt in rec.alternatives && CountType(rec.alternatives, alt.gpuType) == 1
    ensures multiset(Candidates(SwapAlt(Some(rec), alt).value)) == multiset(Candidates(rec))
  {
    WithoutTypeUnique(rec.alternatives, alt);
  }
}
