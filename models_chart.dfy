/** ModelsChart.jsx: splitting the `models` prop into ids to fetch and records
    already at hand, draining the id queue into a growing list of details
    (published after every append, stopped by the effect's cleanup), and
    mapping the details to the rows and the bar scale of the chart. */
module ModelsChart {
  import opened JsValues
  import ModelDetails

  /** The ids to fetch, without repeats and in first-occurrence order, and the
      records passed in directly. */
  datatype Normalized = Normalized(ids: seq<string>, preResolved: seq<JsValue>)

  /** `models.filter((m) => typeof m === "string")` */
  function StringEntries(items: seq<JsValue>): (r: seq<string>)
    ensures forall s :: s in r <==> Str(s) in items
    ensures |r| <= |items|
  {
    if items == [] then []
    else
      var rest := StringEntries(items[1..]);
      assert forall v :: v in items <==> v == items[0] || v in items[1..];
      if items[0].Str? then [items[0].s] + rest else rest
  }

  /** The filter works entry by entry: it keeps the string entries in their
      order, each as often as it occurs. */
  lemma {:induction false} StringEntriesAppend(a: seq<JsValue>, b: seq<JsValue>)
    ensures StringEntries(a + b) == StringEntries(a) + StringEntries(b)
  {
    if a != [] {
      assert (a + b)[0] == a[0] && (a + b)[1..] == a[1..] + b;
      StringEntriesAppend(a[1..], b);
    } else {
      assert a + b == b;
    }
  }

  lemma StringEntriesSingle(v: JsValue)
    ensures StringEntries([v]) == if v.Str? then [v.s] else []
  {
  }

  /** Two different strings come out of the filter in the order of their
      first occurrences in the input. */
  lemma {:induction false} StringEntriesOrder(items: seq<JsValue>, s: string, t: string)
    requires s != t && s in StringEntries(items) && t in StringEntries(items)
    ensures Str(s) in items && Str(t) in items
    ensures IndexOf(StringEntries(items), s) < IndexOf(StringEntries(items), t)
            <==> IndexOf(items, Str(s)) < IndexOf(items, Str(t))
  {
    var r := StringEntries(items);
    if items[0] != Str(s) && items[0] != Str(t) {
      var rest := items[1..];
      if items[0].Str? {
        assert r == [items[0].s] + StringEntries(rest);
        IndexOfTail(r, s);
        IndexOfTail(r, t);
      }
      StringEntriesOrder(rest, s, t);
      IndexOfTail(items, Str(s));
      IndexOfTail(items, Str(t));
    }
  }

  /** `m && typeof m === "object"`: a truthy object or array (null is an
      object to `typeof` but is falsy). */
  predicate IsObjectEntry(v: JsValue) {
    v.Obj? || v.Arr?
  }

  /** `models.filter((m) => m && typeof m === "object")` */
  function ObjectEntries(items: seq<JsValue>): (r: seq<JsValue>)
    ensures forall v :: v in r <==> v in items && IsObjectEntry(v)
    ensures |r| <= |items|
  {
    if items == [] then []
    else
      var rest := ObjectEntries(items[1..]);
      assert forall v :: v in items <==> v == items[0] || v in items[1..];
      if IsObjectEntry(items[0]) then [items[0]] + rest else rest
  }

  /** The filter works entry by entry: it keeps the object entries in their
      order, each as often as it occurs. */
  lemma {:induction false} ObjectEntriesAppend(a: seq<JsValue>, b: seq<JsValue>)
    ensures ObjectEntries(a + b) == ObjectEntries(a) + ObjectEntries(b)
  {
    if a != [] {
      assert (a + b)[0] == a[0] && (a + b)[1..] == a[1..] + b;
      ObjectEntriesAppend(a[1..], b);
    } else {
      assert a + b == b;
    }
  }

  lemma ObjectEntriesSingle(v: JsValue)
    ensures ObjectEntries([v]) == if IsObjectEntry(v) then [v] else []
  {
  }

  /** The position of the first occurrence of `x`. */
  function IndexOf<T(==)>(xs: seq<T>, x: T): (i: nat)
    requires x in xs
    ensures i < |xs| && xs[i] == x && x !in xs[..i]
  {
    if xs[0] == x then 0 else 1 + IndexOf(xs[1..], x)
  }

  lemma {:induction false} IndexOfTail<T>(xs: seq<T>, x: T)
    requires x in xs && xs[0] != x
    ensures x in xs[1..] && IndexOf(xs, x) == 1 + IndexOf(xs[1..], x)
  {
  }

  /** `[...new Set(xs)]` after the values in `seen` have already been taken. */
  function DedupFrom(xs: seq<string>, seen: set<string>): (r: seq<string>)
    ensures forall x :: x in r <==> x in xs && x !in seen
    ensures forall i, j :: 0 <= i < j < |r| ==> r[i] != r[j]
    ensures forall i, j :: 0 <= i < j < |r| ==> IndexOf(xs, r[i]) < IndexOf(xs, r[j])
  {
    if xs == [] then []
    else
      assert forall v :: v in xs <==> v == xs[0] || v in xs[1..];
      if xs[0] in seen then
        var rest := DedupFrom(xs[1..], seen);
        forall k | 0 <= k < |rest|
          ensures IndexOf(xs, rest[k]) == 1 + IndexOf(xs[1..], rest[k])
        {
          IndexOfTail(xs, rest[k]);
        }
        rest
      else
        var rest := DedupFrom(xs[1..], seen + {xs[0]});
        var r := [xs[0]] + rest;
        forall k | 0 <= k < |rest|
          ensures IndexOf(xs, rest[k]) == 1 + IndexOf(xs[1..], rest[k])
        {
          IndexOfTail(xs, rest[k]);
        }
        assert forall k :: 1 <= k < |r| ==> r[k] == rest[k - 1];
        r
  }

  /** `[...new Set(xs)]`: every value once, in the order it first appears. */
  function Dedup(xs: seq<string>): (r: seq<string>)
    ensures forall x :: x in r <==> x in xs
    ensures forall i, j :: 0 <= i < j < |r| ==> r[i] != r[j]
    ensures forall i, j :: 0 <= i < j < |r| ==> IndexOf(xs, r[i]) < IndexOf(xs, r[j])
  {
    DedupFrom(xs, {})
  }

  /** The `useMemo` normalisation of the `models` prop. */
  function Normalize(models: JsValue): (n: Normalized)
    ensures !models.Arr? ==> n.ids == [] && n.preResolved == []
    ensures models.Arr? ==> forall s :: s in n.ids <==> Str(s) in models.items
    ensures forall i, j :: 0 <= i < j < |n.ids| ==> n.ids[i] != n.ids[j]
    ensures models.Arr? ==> forall i, j :: 0 <= i < j < |n.ids| ==>
              IndexOf(models.items, Str(n.ids[i])) < IndexOf(models.items, Str(n.ids[j]))
    ensures models.Arr? ==> forall v :: v in n.preResolved <==> v in models.items && IsObjectEntry(v)
    ensures models.Arr? ==> n.preResolved == ObjectEntries(models.items)
  {
    if !models.Arr? then Normalized([], [])
    else
      var ids := Dedup(StringEntries(models.items));
      DedupKeepsFirstOccurrenceOrder(models.items, ids);
      Normalized(ids, ObjectEntries(models.items))
  }

  /** The unique ids follow the first occurrences of their strings in the
      `models` array. */
  lemma DedupKeepsFirstOccurrenceOrder(items: seq<JsValue>, ids: seq<string>)
    requires ids == Dedup(StringEntries(items))
    ensures forall i :: 0 <= i < |ids| ==> Str(ids[i]) in items
    ensures forall i, j :: 0 <= i < j < |ids| ==> IndexOf(items, Str(ids[i])) < IndexOf(items, Str(ids[j]))
  {
    forall i, j | 0 <= i < j < |ids|
      ensures IndexOf(items, Str(ids[i])) < IndexOf(items, Str(ids[j]))
    {
      StringEntriesOrder(items, ids[i], ids[j]);
    }
  }

  /** What a fetch of `/models/{id}` ends in: the parsed JSON of an OK
      response, or failure (a non-OK status, a network error or a body that is
      not JSON). */
  datatype Fetched = Loaded(record: JsValue) | Failed

  /** `fetchChunk(id)`: the loaded record, or the placeholder `{model_id: id}`. */
  function FetchChunk(fetch: string -> Fetched, id: string): (d: JsValue)
    ensures fetch(id).Loaded? ==> d == fetch(id).record
    ensures fetch(id).Failed? ==> d == Obj(map["model_id" := Str(id)])
  {
    match fetch(id)
    case Loaded(record) => record
    case Failed => Obj(map["model_id" := Str(id)])
  }

  /** The records the queue yields for `ids`, one per id, in queue order. */
  function Hydrated(fetch: string -> Fetched, ids: seq<string>): (ds: seq<JsValue>)
    ensures |ds| == |ids|
    ensures forall i :: 0 <= i < |ids| ==> ds[i] == FetchChunk(fetch, ids[i])
  {
    seq(|ids|, i requires 0 <= i < |ids| => FetchChunk(fetch, ids[i]))
  }

  /** How many records are appended: all of them, unless the cleanup runs
      while the fetch that would be record `k + 1` is outstanding. */
  function AppendedCount(ids: seq<string>, cancelAt: Option<nat>): (n: nat)
    ensures n <= |ids|
  {
    if cancelAt.Some? && cancelAt.value < |ids| then cancelAt.value else |ids|
  }

  /** The lists handed to `setDetails` once `n` records have been appended:
      the records passed in, then after each append a copy of the output. */
  function Snapshots(fetch: string -> Fetched, pre: seq<JsValue>, ids: seq<string>, n: nat): seq<seq<JsValue>>
    requires n <= |ids|
  {
    if n == 0 then [pre] else Snapshots(fetch, pre, ids, n - 1) + [pre + Hydrated(fetch, ids[..n])]
  }

  /** The hydration effect for one `models` value. `fetch` stands for the
      network; `cancelAt` says when the effect's cleanup runs: `Some(k)` once
      `k` records have been appended (while the next fetch is outstanding, or
      before `loading` is reset when `k` is the number of ids), `None` never.
      `published` is every list handed to `setDetails`, and `loading` the
      flag when the effect is done, given its value `loadingBefore` before. */
  method Hydrate(models: JsValue, fetch: string -> Fetched, cancelAt: Option<nat>, loadingBefore: bool)
    returns (published: seq<seq<JsValue>>, loading: bool)
    ensures var n := Normalize(models);
      published == Snapshots(fetch, n.preResolved, n.ids, AppendedCount(n.ids, cancelAt))
    ensures var n := Normalize(models);
      loading == if n.ids == [] then loadingBefore else cancelAt.Some? && cancelAt.value <= |n.ids|
  {
    var n := Normalize(models);
    var ids, preResolved := n.ids, n.preResolved;
    published := [preResolved];
    loading := loadingBefore;
    if |ids| == 0 {
      return;
    }
    loading := true;
    var more, appended := Runner(ids, preResolved, fetch, cancelAt);
    published := published + more;
    var cancelled := cancelAt.Some? && cancelAt.value <= appended;
    if !cancelled {
      loading := false;
    }
  }

  /** One runner of the pool, run alone: it takes ids off the front of the
      queue until the queue is empty or the cleanup has run, and after each
      fetch that finishes before the cleanup appends the record and publishes
      a copy of the output. `more` is what it publishes and `appended` how
      many records it appended. */
  method Runner(ids: seq<string>, preResolved: seq<JsValue>, fetch: string -> Fetched, cancelAt: Option<nat>)
    returns (more: seq<seq<JsValue>>, appended: nat)
    ensures appended == AppendedCount(ids, cancelAt)
    ensures [preResolved] + more == Snapshots(fetch, preResolved, ids, appended)
  {
    var queue := ids;
    var out := preResolved;
    more := [];
    appended := 0;
    var cancelled := false;
    while |queue| > 0 && !cancelled
      invariant appended <= |ids|
      invariant out == preResolved + Hydrated(fetch, ids[..appended])
      invariant !cancelled ==> queue == ids[appended..]
      invariant !cancelled ==> !(cancelAt.Some? && cancelAt.value < appended)
      invariant cancelled ==> cancelAt == Some(appended) && appended < |ids|
      invariant [preResolved] + more == Snapshots(fetch, preResolved, ids, appended)
      decreases |queue|
    {
      var id := queue[0];
      queue := queue[1..];
      var d := FetchChunk(fetch, id);
      if cancelAt == Some(appended) {
        cancelled := true;
      }
      if !cancelled {
        assert ids[..appended + 1] == ids[..appended] + [id];
        HydratedAppend(fetch, ids[..appended], id);
        out := out + [d];
        more := more + [out];
        appended := appended + 1;
      }
    }
  }

  lemma HydratedAppend(fetch: string -> Fetched, ids: seq<string>, id: string)
    ensures Hydrated(fetch, ids + [id]) == Hydrated(fetch, ids) + [FetchChunk(fetch, id)]
  {
    assert Hydrated(fetch, ids + [id])[..|ids|] == Hydrated(fetch, ids);
  }

  /** The published lists: the first is the records passed in, the `j`-th is
      those followed by the records of the first `j` ids, and each is the
      previous one with exactly one record more. */
  lemma {:induction false} SnapshotsShape(fetch: string -> Fetched, pre: seq<JsValue>, ids: seq<string>, n: nat)
    requires n <= |ids|
    ensures var ps := Snapshots(fetch, pre, ids, n);
      && |ps| == n + 1
      && ps[0] == pre
      && (forall j :: 0 <= j < |ps| ==> ps[j] == pre + Hydrated(fetch, ids[..j]))
      && (forall j :: 0 < j < |ps| ==> ps[j - 1] < ps[j] && |ps[j]| == |ps[j - 1]| + 1)
  {
    if n > 0 {
      SnapshotsShape(fetch, pre, ids, n - 1);
      assert ids[..n] == ids[..n - 1] + [ids[n - 1]];
      HydratedAppend(fetch, ids[..n - 1], ids[n - 1]);
    } else {
      assert ids[..0] == [];
    }
  }

  /** Without cleanup before the end, the last published list is the records
      passed in followed by one record per id, each id fetched once and in
      order; with the cleanup after `k < |ids|` appends, exactly `k` records
      follow them. */
  lemma HydrationResult(models: JsValue, fetch: string -> Fetched, cancelAt: Option<nat>)
    ensures var n := Normalize(models);
      var ps := Snapshots(fetch, n.preResolved, n.ids, AppendedCount(n.ids, cancelAt));
      var last := ps[|ps| - 1];
      && last[..|n.preResolved|] == n.preResolved
      && |last| == |n.preResolved| + AppendedCount(n.ids, cancelAt)
      && (cancelAt.None? || cancelAt.value >= |n.ids| ==> |last| == |n.preResolved| + |n.ids|)
      && forall i :: 0 <= i < AppendedCount(n.ids, cancelAt) ==>
           last[|n.preResolved| + i] == FetchChunk(fetch, n.ids[i])
  {
    var n := Normalize(models);
    var k := AppendedCount(n.ids, cancelAt);
    SnapshotsShape(fetch, n.preResolved, n.ids, k);
  }

  /** A row of the chart. `id` is `d?.model_id ?? "(unknown)"`, which keeps a
      model_id of any type. */
  datatype Row = Row(id: JsValue, vram: Option<real>, latencyS: Option<real>)

  const UNKNOWN_ID := "(unknown)"

  function RowOf(d: JsValue, number: StringToNumber): (r: Row)
    ensures IsNullish(Get(d, "model_id")) ==> r.id == Str(UNKNOWN_ID)
    ensures !IsNullish(Get(d, "model_id")) ==> r.id == Get(d, "model_id")
    ensures var s := ToNum(Get(d, "base_latency_s"), number);
      && (s.Some? ==> r.latencyS == s)
      && (s.None? ==> r.latencyS == ToNum(Get(d, "first_token_latency_s"), number))
    ensures r.vram == ModelDetails.MinimalVram(d, number)
  {
    var id := Get(d, "model_id");
    var latencyFields := [Get(d, "base_latency_s"), Get(d, "first_token_latency_s")];
    assert latencyFields[0] == Get(d, "base_latency_s") && latencyFields[1] == Get(d, "first_token_latency_s");
    Row(if IsNullish(id) then Str(UNKNOWN_ID) else id,
        FirstNum([Get(d, "minimal_gpu_memory_gb"), Get(d, "base_vram_gb"), Get(d, "min_vram_gb")], number),
        FirstNum(latencyFields, number))
  }

  /** The chart's data: one row per detail, in order. */
  function Rows(details: seq<JsValue>, number: StringToNumber): (rows: seq<Row>)
    ensures |rows| == |details|
    ensures forall i :: 0 <= i < |details| ==> rows[i] == RowOf(details[i], number)
  {
    seq(|details|, i requires 0 <= i < |details| => RowOf(details[i], number))
  }

  /** A failed fetch still gives a row, under the requested id, with no VRAM
      and no latency. */
  lemma PlaceholderRow(fetch: string -> Fetched, id: string, number: StringToNumber)
    requires fetch(id).Failed?
    ensures RowOf(FetchChunk(fetch, id), number) == Row(Str(id), None, None)
  {
    var d := FetchChunk(fetch, id);
    assert Get(d, "model_id") == Str(id);
    assert Get(d, "minimal_gpu_memory_gb") == Undefined && Get(d, "base_vram_gb") == Undefined;
    assert Get(d, "min_vram_gb") == Undefined;
    assert Get(d, "base_latency_s") == Undefined && Get(d, "first_token_latency_s") == Undefined;
  }

  /** One step of the reduce: `r.vram != null ? Math.max(m, r.vram) : m`. */
  function MaxStep(m: real, r: Row): real {
    if r.vram.Some? && r.vram.value > m then r.vram.value else m
  }

  /** The reduce from accumulator `m` over `rows`. */
  function VramReduce(rows: seq<Row>, m: real): (r: real)
    ensures r >= m
    ensures forall i :: 0 <= i < |rows| && rows[i].vram.Some? ==> rows[i].vram.value <= r
    ensures r == m || exists i :: 0 <= i < |rows| && rows[i].vram == Some(r)
  {
    if rows == [] then m
    else
      var r := VramReduce(rows[1..], MaxStep(m, rows[0]));
      assert forall i :: 1 <= i < |rows| ==> rows[i] == rows[1..][i - 1];
      r
  }

  /** `data.reduce(..., 0) || 1`: the widest VRAM, or 1 when no row has a
      positive VRAM. */
  function MaxVram(rows: seq<Row>): (r: real)
    ensures r > 0.0
    ensures forall i :: 0 <= i < |rows| && rows[i].vram.Some? ==> rows[i].vram.value <= r
    ensures (exists i :: 0 <= i < |rows| && rows[i].vram.Some? && rows[i].vram.value > 0.0)
            ==> exists i :: 0 <= i < |rows| && rows[i].vram == Some(r)
    ensures (forall i :: 0 <= i < |rows| && rows[i].vram.Some? ==> rows[i].vram.value <= 0.0) ==> r == 1.0
  {
    var m := VramReduce(rows, 0.0);
    if m == 0.0 then 1.0 else m
  }

  /** At most this many rows are drawn. */
  const MAX_SHOWN_ROWS := 20

  /** `data.slice(0, 20)` and whether the "Showing 20 of N models…" note is shown. */
  function ShownRows(rows: seq<Row>): (r: (seq<Row>, bool))
    ensures |r.0| == if |rows| < MAX_SHOWN_ROWS then |rows| else MAX_SHOWN_ROWS
    ensures r.0 <= rows
    ensures r.1 <==> |rows| > |r.0|
  {
    if |rows| <= MAX_SHOWN_ROWS then (rows, false) else (rows[..MAX_SHOWN_ROWS], true)
  }
}
