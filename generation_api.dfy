/**
 * Listing a project's generations from the document store: the newest `cap`
 * documents of the project's generations collection, each turned into a row
 * with defaults for missing fields.
 */
module GenerationApi {
  import opened Wrappers
  import opened Json

  /** A stored generation document. */
  type Doc = map<string, Json>

  /** A listed generation. Field values are as stored (the source only casts them). */
  datatype Generation = Generation(
    id: string,
    projectId: string,
    prompt: Json,
    mode: Json,
    thumbUrl: Json,
    createdAt: Json)

  /** `opts?: { cap?: number }`. */
  datatype ListOptions = ListOptions(cap: Option<int>)

  datatype ListResult = Rows(rows: seq<Generation>) | LimitRejected

  function Read(d: Doc, k: string): Option<Json>
  {
    if k in d then Some(d[k]) else None
  }

  /** `opts?.cap ?? 200`. */
  function CapOf(opts: Option<ListOptions>): (cap: int)
    ensures opts.None? || opts.value.cap.None? ==> cap == 200
    ensures opts.Some? && opts.value.cap.Some? ==> cap == opts.value.cap.value
  {
    if opts.Some? && opts.value.cap.Some? then opts.value.cap.value else 200
  }

  /** The row built from document `id` with data `d`; `now` is the clock reading used for a missing `createdAt`. */
  function RowOf(projectId: string, id: string, d: Doc, now: int): (g: Generation)
    ensures g.id == id && g.projectId == projectId
    ensures (Read(d, "prompt").None? || d["prompt"].Undef? || d["prompt"].Null?) ==> g.prompt == Str("")
    ensures (Read(d, "mode").None? || d["mode"].Undef? || d["mode"].Null?) ==> g.mode == Str("t2i")
    ensures (Read(d, "thumbUrl").None? || d["thumbUrl"].Undef? || d["thumbUrl"].Null?) ==> g.thumbUrl == Str("")
    ensures (Read(d, "createdAt").None? || d["createdAt"].Undef? || d["createdAt"].Null?) ==> g.createdAt == Num(now)
    ensures forall k | k in {"prompt", "mode", "thumbUrl", "createdAt"} && k in d && !d[k].Undef? && !d[k].Null? ::
      (k == "prompt" ==> g.prompt == d[k]) && (k == "mode" ==> g.mode == d[k])
      && (k == "thumbUrl" ==> g.thumbUrl == d[k]) && (k == "createdAt" ==> g.createdAt == d[k])
  {
    Generation(
      id,
      projectId,
      Coalesce(Read(d, "prompt"), Str("")),
      Coalesce(Read(d, "mode"), Str("t2i")),
      Coalesce(Read(d, "thumbUrl"), Str("")),
      Coalesce(Read(d, "createdAt"), Num(now)))
  }

  function Min(a: int, b: int): int
  {
    if a <= b then a else b
  }

  /**
   * `listGenerationsByProject(projectId, opts)`. `ordered` is the project's
   * generations collection in the query's order (`createdAt`, newest first);
   * the store keeps the first `cap` of them and rejects a limit that is not
   * positive.
   */
  method ListGenerationsByProject(projectId: string, opts: Option<ListOptions>, ordered: seq<(string, Doc)>, now: int)
    returns (result: ListResult)
    ensures result.LimitRejected? <==> CapOf(opts) <= 0
    ensures result.Rows? ==> |result.rows| == Min(CapOf(opts), |ordered|) <= CapOf(opts)
    ensures result.Rows? ==> forall i :: 0 <= i < |result.rows| ==>
      result.rows[i] == RowOf(projectId, ordered[i].0, ordered[i].1, now)
    ensures result.Rows? ==> forall g | g in result.rows :: g.projectId == projectId
  {
    var cap := if opts.Some? && opts.value.cap.Some? then opts.value.cap.value else 200;
    if cap <= 0 {
      return LimitRejected;
    }
    var snap := ordered[..Min(cap, |ordered|)];
    var rows: seq<Generation> := [];
    var i := 0;
    while i < |snap|
      invariant 0 <= i <= |snap|
      invariant |rows| == i
      invariant forall j :: 0 <= j < i ==> rows[j] == RowOf(projectId, snap[j].0, snap[j].1, now)
    {
      var (id, data) := snap[i];
      rows := rows + [Generation(
        id,
        projectId,
        Coalesce(Read(data, "prompt"), Str("")),
        Coalesce(Read(data, "mode"), Str("t2i")),
        Coalesce(Read(data, "thumbUrl"), Str("")),
        Coalesce(Read(data, "createdAt"), Num(now)))];
      i := i + 1;
    }
    return Rows(rows);
  }
}
