/**
 * The dashboard header's local filter state and its multi-select tag rule, in
 * which `"All"` stands for "no tag filter" and acts as a reset.
 */
module DashboardHeader {
  import Seqs
  import opened DashboardFilters

  /** The header's own filter state. */
  datatype HeaderFilters = HeaderFilters(query: string, tags: seq<string>, dateSort: DateSort)

  /** A selection is either exactly `["All"]`, or a non-empty list of concrete tags. */
  predicate ValidSelection(tags: seq<string>)
  {
    tags == ["All"] || (tags != [] && "All" !in tags)
  }

  /** The state the header starts in. */
  function InitialHeader(): (h: HeaderFilters)
    ensures h.query == "" && h.tags == ["All"] && h.dateSort == Newest
    ensures ValidSelection(h.tags)
  {
    HeaderFilters("", ["All"], Newest)
  }

  function IsConcrete(x: string): bool
  {
    x != "All"
  }

  function KeepOther(t: string): string -> bool
  {
    x => x != t && x != "All"
  }

  /**
   * `toggleTag(t)` applied to the previous selection `prev`. Whatever `prev`
   * is, the result is a valid selection; `"All"` resets; a selected tag is
   * removed (every occurrence); an unselected one is appended after the
   * previous concrete tags.
   */
  function ToggleTag(prev: seq<string>, t: string): (r: seq<string>)
    ensures ValidSelection(r)
    ensures t == "All" ==> r == ["All"]
    ensures t != "All" && t !in prev ==> r == Seqs.Filter(prev, IsConcrete) + [t]
    ensures t != "All" && t in prev ==> t !in r
    ensures t != "All" && t in prev ==>
      forall x | x in prev && x != t && x != "All" :: x in r
    ensures t != "All" && t in prev ==>
      r == (if Seqs.Filter(prev, KeepOther(t)) == [] then ["All"] else Seqs.Filter(prev, KeepOther(t)))
  {
    if t == "All" then ["All"]
    else
      var next := if t in prev then Seqs.Filter(prev, KeepOther(t)) else Seqs.Filter(prev, IsConcrete) + [t];
      if next == [] then ["All"] else next
  }

  /** Removing a tag keeps the other selected tags in their order. */
  lemma ToggleKeepsOrder(prev: seq<string>, t: string, x: string, y: string)
    requires t != "All" && t in prev
    requires x != t && x != "All" && y != t && y != "All"
    ensures Seqs.Before(ToggleTag(prev, t), x, y) <==> Seqs.Before(prev, x, y)
  {
    Seqs.BeforeFilter(prev, KeepOther(t), x, y);
  }

  /** Toggling a tag the valid selection lacks, then toggling it again, restores the selection. */
  lemma ToggleTwiceRestores(prev: seq<string>, t: string)
    requires ValidSelection(prev) && t != "All" && t !in prev
    ensures ToggleTag(ToggleTag(prev, t), t) == prev
  {
    var concrete := Seqs.Filter(prev, IsConcrete);
    var once := concrete + [t];
    assert ToggleTag(prev, t) == once;
    assert t in once;
    Seqs.FilterAppend(concrete, [t], KeepOther(t));
    Seqs.FilterCons([t], KeepOther(t));
    assert [t][1..] == [];
    Seqs.FilterKeepsAll(concrete, KeepOther(t));
    if prev == ["All"] {
      assert prev[1..] == [];
      Seqs.FilterCons(prev, IsConcrete);
      assert concrete == [];
    } else {
      Seqs.FilterKeepsAll(prev, IsConcrete);
    }
  }

  /** A selection without repeated tags stays without repeats. */
  lemma ToggleNoDuplicates(prev: seq<string>, t: string)
    requires Seqs.NoDuplicates(prev)
    ensures Seqs.NoDuplicates(ToggleTag(prev, t))
  {
    if t != "All" {
      if t in prev {
        Seqs.FilterNoDuplicates(prev, KeepOther(t));
      } else {
        var concrete := Seqs.Filter(prev, IsConcrete);
        Seqs.FilterNoDuplicates(prev, IsConcrete);
        var r := concrete + [t];
        assert t !in concrete;
        forall i, j | 0 <= i < j < |r| ensures r[i] != r[j] {
          if j == |r| - 1 {
            assert r[i] == concrete[i];
          } else {
            assert r[i] == concrete[i] && r[j] == concrete[j];
          }
        }
      }
    }
  }
}
