/**
 * The dashboard filter store: the search query, the selected tags, the tags
 * offered for selection and the date ordering, shared by the dashboard views.
 */
module DashboardFilters {
  import opened Wrappers
  import opened Json
  import JsString
  import Seqs

  /** `"newest" | "oldest" | "7d" | "30d"`. */
  datatype DateSort = Newest | Oldest | Last7Days | Last30Days

  function StrOf(t: string): Json { Str(t) }

  /** A list of tags as the JavaScript array of strings it is. */
  function TagArray(tags: seq<string>): Json
  {
    Arr(Seqs.Map(tags, StrOf))
  }

  /**
   * `normalizeTags(input)`: whatever shape the tags arrive in, a list of strings.
   * `JSON.parse` is the parameter `parse`; `None` is a parse that throws.
   */
  function NormalizeTags(input: Json, parse: string -> Option<Json>): (r: seq<string>)
    ensures input.Arr? ==> r == Seqs.Map(input.items, ToStr)
    ensures input.Str? && parse(input.s).Some? && parse(input.s).value.Arr? ==>
      r == Seqs.Map(parse(input.s).value.items, ToStr)
    ensures input.Str? && parse(input.s).Some? && parse(input.s).value.Str? && parse(input.s).value.s != [] ==>
      r == [parse(input.s).value.s]
    ensures input.Str? && parse(input.s).None? ==>
      r == (if JsString.Trim(input.s) != [] then [JsString.Trim(input.s)] else ["All"])
    ensures !input.Arr? && !(input.Str? && parse(input.s).Some? && (parse(input.s).value.Arr? || (parse(input.s).value.Str? && parse(input.s).value.s != []))) ==>
      (input.Str? && parse(input.s).None? && JsString.Trim(input.s) != []) || r == ["All"]
  {
    match input
    case Arr(items) => Seqs.Map(items, ToStr)
    case Str(s) =>
      (match parse(s)
       case Some(parsed) =>
         if parsed.Arr? then Seqs.Map(parsed.items, ToStr)
         else if parsed.Str? && parsed.s != [] then [parsed.s]
         else ["All"]
       case None =>
         var t := JsString.Trim(s);
         if t != [] then [t] else ["All"])
    case _ => ["All"]
  }

  /**
   * The result is empty only for an empty array, given directly or as a string
   * that parses to one; every other input yields at least one tag.
   */
  lemma NormalizeTagsEmpty(input: Json, parse: string -> Option<Json>)
    ensures NormalizeTags(input, parse) == [] <==>
      input == Arr([]) || (input.Str? && parse(input.s) == Some(Arr([])))
  {
    if input.Arr? && input.items != [] {
      assert |NormalizeTags(input, parse)| == |input.items|;
    }
    if input.Str? && parse(input.s).Some? && parse(input.s).value.Arr? && parse(input.s).value.items != [] {
      assert |NormalizeTags(input, parse)| == |parse(input.s).value.items|;
    }
  }

  /** A list of strings comes back unchanged: normalising normalised tags changes nothing. */
  lemma NormalizeTagsOfTags(tags: seq<string>, parse: string -> Option<Json>)
    ensures NormalizeTags(TagArray(tags), parse) == tags
  {
    var r := NormalizeTags(TagArray(tags), parse);
    assert |r| == |tags|;
    forall i | 0 <= i < |tags| ensures r[i] == tags[i] {
      assert Seqs.Map(tags, StrOf)[i] == Str(tags[i]);
    }
  }

  /** Normalising twice is normalising once. */
  lemma NormalizeTagsIdempotent(input: Json, parse: string -> Option<Json>)
    ensures NormalizeTags(TagArray(NormalizeTags(input, parse)), parse) == NormalizeTags(input, parse)
  {
    NormalizeTagsOfTags(NormalizeTags(input, parse), parse);
  }

  /** The argument of `setTags`: a replacement value, or an updater applied to the current tags. */
  datatype TagsUpdate = Replace(value: Json) | Updater(f: seq<string> -> Json)

  /** The shared store (`useDashboardFilters`). */
  class FilterStore {
    var query: string
    var tags: seq<string>
    var availableTags: seq<string>
    var dateSort: DateSort

    constructor ()
      ensures query == "" && tags == ["All"] && availableTags == [] && dateSort == Newest
    {
      query := "";
      tags := ["All"];
      availableTags := [];
      dateSort := Newest;
    }

    method SetQuery(q: string)
      modifies this`query
      ensures query == q
      ensures tags == old(tags) && availableTags == old(availableTags) && dateSort == old(dateSort)
    {
      query := q;
    }

    /**
     * `setTags(next)`: the stored tags are `normalizeTags` of the new value; an
     * updater is called with `normalizeTags` of the current tags, which are the
     * current tags themselves.
     */
    method SetTags(next: TagsUpdate, parse: string -> Option<Json>)
      modifies this`tags
      ensures next.Replace? ==> tags == NormalizeTags(next.value, parse)
      ensures next.Updater? ==> tags == NormalizeTags(next.f(old(tags)), parse)
      ensures query == old(query) && availableTags == old(availableTags) && dateSort == old(dateSort)
    {
      var prev := NormalizeTags(TagArray(tags), parse);
      NormalizeTagsOfTags(tags, parse);
      var value := match next
        case Replace(v) => v
        case Updater(f) => f(prev);
      tags := NormalizeTags(value, parse);
    }

    method SetDateSort(d: DateSort)
      modifies this`dateSort
      ensures dateSort == d
      ensures query == old(query) && tags == old(tags) && availableTags == old(availableTags)
    {
      dateSort := d;
    }

    /** `setAvailableTags(tags)`: each distinct tag once, in order of first occurrence. */
    method SetAvailableTags(ts: seq<string>)
      modifies this`availableTags
      ensures availableTags == Seqs.Dedup(ts)
      ensures forall t :: t in availableTags <==> t in ts
      ensures Seqs.NoDuplicates(availableTags)
      ensures query == old(query) && tags == old(tags) && dateSort == old(dateSort)
    {
      availableTags := Seqs.Dedup(ts);
    }
  }
}
