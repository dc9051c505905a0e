/**
 * The browser-local gallery: a list of generations (one per prompt submission),
 * each owning an ordered list of images. The whole list is the persisted state;
 * every operation loads it, changes it and writes it back in one turn.
 */
module LocalImages {
  import opened Wrappers
  import opened Json
  import Seqs

  datatype GenMode = T2I | I2I

  datatype LocalImageItem = LocalImageItem(id: string, dataUrl: string, thumbUrl: Option<string>, meta: Option<Json>)

  datatype LocalGeneration = LocalGeneration(
    id: string,
    projectId: string,
    prompt: string,
    mode: GenMode,
    createdAt: int,
    images: seq<LocalImageItem>)

  /** The argument of `saveGeneration`: a generation without its timestamp, the id and images optional. */
  datatype GenerationInput = GenerationInput(
    id: Option<string>,
    projectId: string,
    prompt: string,
    mode: GenMode,
    images: Option<seq<LocalImageItem>>)

  /** One row of the thumbnail grid: an image with its generation's metadata. */
  datatype ProjectImageFlat = ProjectImageFlat(
    genId: string,
    prompt: string,
    mode: GenMode,
    createdAt: int,
    image: LocalImageItem)

  function CreatedAt(g: LocalGeneration): int { g.createdAt }

  function RowCreatedAt(r: ProjectImageFlat): int { r.createdAt }

  function InProject(projectId: string): LocalGeneration -> bool
  {
    (g: LocalGeneration) => g.projectId == projectId
  }

  function HasId(genId: string): LocalGeneration -> bool
  {
    (g: LocalGeneration) => g.id == genId
  }

  function IsTarget(projectId: string, genId: string): LocalGeneration -> bool
  {
    (g: LocalGeneration) => g.projectId == projectId && g.id == genId
  }

  function NotTarget(projectId: string, genId: string): LocalGeneration -> bool
  {
    (g: LocalGeneration) => !(g.projectId == projectId && g.id == genId)
  }

  function NotImage(imageId: string): LocalImageItem -> bool
  {
    (i: LocalImageItem) => i.id != imageId
  }

  /** `listGenerations(projectId)`: the project's generations, newest first. */
  function ProjectGenerations(all: seq<LocalGeneration>, projectId: string): seq<LocalGeneration>
  {
    Seqs.SortDesc(Seqs.Filter(all, InProject(projectId)), CreatedAt)
  }

  function RowOf(g: LocalGeneration, img: LocalImageItem): ProjectImageFlat
  {
    ProjectImageFlat(g.id, g.prompt, g.mode, g.createdAt, img)
  }

  /** The rows of one generation, one per image, in image order. */
  function Rows(g: LocalGeneration): (r: seq<ProjectImageFlat>)
    ensures |r| == |g.images|
  {
    seq(|g.images|, k requires 0 <= k < |g.images| => RowOf(g, g.images[k]))
  }

  /** The rows of every generation of `gens`, in order. */
  function Flatten(gens: seq<LocalGeneration>): seq<ProjectImageFlat>
  {
    if gens == [] then [] else Rows(gens[0]) + Flatten(gens[1..])
  }

  /** `listImagesByProject(projectId)`: the flattened rows, newest first. */
  function ProjectImages(all: seq<LocalGeneration>, projectId: string): seq<ProjectImageFlat>
  {
    Seqs.SortDesc(Flatten(ProjectGenerations(all, projectId)), RowCreatedAt)
  }

  lemma {:induction false} FlattenAppend(a: seq<LocalGeneration>, b: seq<LocalGeneration>)
    ensures Flatten(a + b) == Flatten(a) + Flatten(b)
  {
    if a == [] {
      assert a + b == b;
    } else {
      assert (a + b)[1..] == a[1..] + b;
      FlattenAppend(a[1..], b);
    }
  }

  lemma RowsMember(g: LocalGeneration, row: ProjectImageFlat)
    ensures row in Rows(g) <==> row.image in g.images && row == RowOf(g, row.image)
  {
    if row.image in g.images && row == RowOf(g, row.image) {
      var k :| 0 <= k < |g.images| && g.images[k] == row.image;
      assert Rows(g)[k] == row;
    }
  }

  lemma {:induction false} FlattenMember(gens: seq<LocalGeneration>, row: ProjectImageFlat)
    ensures row in Flatten(gens) <==> exists g :: g in gens && row.image in g.images && row == RowOf(g, row.image)
  {
    if gens != [] {
      FlattenMember(gens[1..], row);
      RowsMember(gens[0], row);
      assert forall g :: g in gens <==> g == gens[0] || g in gens[1..];
    }
  }

  lemma FlattenPrefixStep(gens: seq<LocalGeneration>, i: nat)
    requires i < |gens|
    ensures Flatten(gens[..i + 1]) == Flatten(gens[..i]) + Rows(gens[i])
  {
    assert gens[..i + 1] == gens[..i] + [gens[i]];
    FlattenAppend(gens[..i], [gens[i]]);
    assert [gens[i]][1..] == [];
  }

  /* ---------- listGenerations ---------- */

  /**
   * `listGenerations(p)` holds exactly the stored generations of project `p`
   * (each as often as it is stored), ordered by non-increasing `createdAt`.
   */
  lemma ProjectGenerationsSpec(all: seq<LocalGeneration>, projectId: string)
    ensures Seqs.SortedDesc(ProjectGenerations(all, projectId), CreatedAt)
    ensures multiset(ProjectGenerations(all, projectId)) == multiset(Seqs.Filter(all, InProject(projectId)))
    ensures forall g :: g in ProjectGenerations(all, projectId) <==> g in all && g.projectId == projectId
  {
    var mine := Seqs.Filter(all, InProject(projectId));
    Seqs.SortDescSorted(mine, CreatedAt);
    var r := ProjectGenerations(all, projectId);
    forall g ensures g in r <==> g in mine {
      assert g in r <==> g in multiset(r);
      assert g in mine <==> g in multiset(mine);
    }
  }

  /** Generations of a project saved with the same timestamp are listed in the order they were saved. */
  lemma ProjectGenerationsTiesKeepOrder(all: seq<LocalGeneration>, projectId: string, g1: LocalGeneration, g2: LocalGeneration)
    requires g1.projectId == projectId && g2.projectId == projectId && g1.createdAt == g2.createdAt
    ensures Seqs.Before(ProjectGenerations(all, projectId), g1, g2) <==> Seqs.Before(all, g1, g2)
  {
    Seqs.BeforeFilter(all, InProject(projectId), g1, g2);
    Seqs.SortDescKeepsOrder(Seqs.Filter(all, InProject(projectId)), CreatedAt, g1, g2);
  }

  lemma FilterSnoc(all: seq<LocalGeneration>, gen: LocalGeneration, projectId: string)
    ensures Seqs.Filter(all + [gen], InProject(projectId))
         == Seqs.Filter(all, InProject(projectId)) + (if gen.projectId == projectId then [gen] else [])
  {
    Seqs.FilterAppend(all, [gen], InProject(projectId));
    Seqs.FilterCons([gen], InProject(projectId));
    assert [gen][1..] == [];
  }

  /**
   * Saving then listing: the new generation is listed under its project once more
   * than before (exactly once when its id is new), and no other project's list changes.
   */
  lemma SaveThenList(all: seq<LocalGeneration>, gen: LocalGeneration, projectId: string)
    ensures projectId == gen.projectId ==>
      multiset(ProjectGenerations(all + [gen], projectId)) == multiset(ProjectGenerations(all, projectId)) + multiset{gen}
    ensures projectId != gen.projectId ==>
      ProjectGenerations(all + [gen], projectId) == ProjectGenerations(all, projectId)
    ensures projectId == gen.projectId && (forall g | g in all :: g.id != gen.id) ==>
      multiset(ProjectGenerations(all + [gen], projectId))[gen] == 1
  {
    FilterSnoc(all, gen, projectId);
    var before := Seqs.Filter(all, InProject(projectId));
    var after := Seqs.Filter(all + [gen], InProject(projectId));
    Seqs.SortDescSorted(before, CreatedAt);
    Seqs.SortDescSorted(after, CreatedAt);
    if projectId == gen.projectId {
      assert multiset(after) == multiset(before) + multiset{gen};
      if forall g | g in all :: g.id != gen.id {
        assert gen !in before;
      }
    } else {
      assert after == before;
    }
  }

  /* ---------- listImagesByProject ---------- */

  /**
   * `listImagesByProject(p)` has one row per image of each of `p`'s listed
   * generations, carrying that generation's id, prompt, mode and timestamp,
   * and the rows are ordered by non-increasing `createdAt`.
   */
  lemma ProjectImagesSpec(all: seq<LocalGeneration>, projectId: string)
    ensures Seqs.SortedDesc(ProjectImages(all, projectId), RowCreatedAt)
    ensures multiset(ProjectImages(all, projectId)) == multiset(Flatten(ProjectGenerations(all, projectId)))
    ensures forall row :: row in ProjectImages(all, projectId) <==>
      exists g :: g in all && g.projectId == projectId && row.image in g.images && row == RowOf(g, row.image)
  {
    var flat := Flatten(ProjectGenerations(all, projectId));
    Seqs.SortDescSorted(flat, RowCreatedAt);
    ProjectGenerationsSpec(all, projectId);
    var r := ProjectImages(all, projectId);
    forall row ensures row in r <==> exists g :: g in all && g.projectId == projectId && row.image in g.images && row == RowOf(g, row.image)
    {
      assert row in r <==> row in multiset(r);
      assert row in flat <==> row in multiset(flat);
      FlattenMember(ProjectGenerations(all, projectId), row);
    }
  }

  /** The rows of one generation keep their image order inside any flattening that contains it. */
  lemma {:induction false} FlattenKeepsImageOrder(gens: seq<LocalGeneration>, i: nat, k1: nat, k2: nat)
    requires i < |gens| && k1 < k2 < |gens[i].images|
    ensures Seqs.Before(Flatten(gens), RowOf(gens[i], gens[i].images[k1]), RowOf(gens[i], gens[i].images[k2]))
  {
    var x := RowOf(gens[i], gens[i].images[k1]);
    var y := RowOf(gens[i], gens[i].images[k2]);
    Seqs.BeforeAppend(Rows(gens[0]), Flatten(gens[1..]), x, y);
    if i == 0 {
      var rows := Rows(gens[0]);
      assert rows[k1] == x && rows[k2] == y;
    } else {
      FlattenKeepsImageOrder(gens[1..], i - 1, k1, k2);
    }
  }

  /** The images of one generation appear in the grid in the order they were appended. */
  lemma ProjectImagesKeepAppendOrder(all: seq<LocalGeneration>, projectId: string, g: LocalGeneration, k1: nat, k2: nat)
    requires g in all && g.projectId == projectId
    requires k1 < k2 < |g.images|
    ensures Seqs.Before(ProjectImages(all, projectId), RowOf(g, g.images[k1]), RowOf(g, g.images[k2]))
  {
    var gens := ProjectGenerations(all, projectId);
    ProjectGenerationsSpec(all, projectId);
    var i :| 0 <= i < |gens| && gens[i] == g;
    FlattenKeepsImageOrder(gens, i, k1, k2);
    Seqs.SortDescKeepsOrder(Flatten(gens), RowCreatedAt, RowOf(g, g.images[k1]), RowOf(g, g.images[k2]));
  }

  /** Rows of a newer generation come before rows of an older one. */
  lemma ProjectImagesNewerFirst(all: seq<LocalGeneration>, projectId: string, r1: ProjectImageFlat, r2: ProjectImageFlat)
    requires r1 in ProjectImages(all, projectId) && r2 in ProjectImages(all, projectId)
    requires r1.createdAt > r2.createdAt
    ensures Seqs.Before(ProjectImages(all, projectId), r1, r2)
  {
    var flat := Flatten(ProjectGenerations(all, projectId));
    Seqs.SortDescSorted(flat, RowCreatedAt);
    assert r1 in multiset(ProjectImages(all, projectId)) && r2 in multiset(ProjectImages(all, projectId));
    assert r1 in multiset(flat) && r2 in multiset(flat);
    Seqs.SortDescOrdersKeys(flat, RowCreatedAt, r1, r2);
  }

  /**
   * Project P with G1 (createdAt 100, images [i1]) and G2 (createdAt 200,
   * images [i2, i3]) lists [(G2, i2), (G2, i3), (G1, i1)].
   */
  lemma ProjectImagesExample(i1: LocalImageItem, i2: LocalImageItem, i3: LocalImageItem)
    ensures
      var g1 := LocalGeneration("G1", "P", "first", T2I, 100, [i1]);
      var g2 := LocalGeneration("G2", "P", "second", I2I, 200, [i2, i3]);
      ProjectImages([g1, g2], "P") == [RowOf(g2, i2), RowOf(g2, i3), RowOf(g1, i1)]
  {
    var g1 := LocalGeneration("G1", "P", "first", T2I, 100, [i1]);
    var g2 := LocalGeneration("G2", "P", "second", I2I, 200, [i2, i3]);
    var all := [g1, g2];
    assert all[1..] == [g2];
    assert Seqs.Filter(all, InProject("P")) == [g1, g2];
    assert Seqs.SortDesc([g2], CreatedAt) == [g2] by {
      assert [g2][1..] == [];
    }
    assert Seqs.InsertDesc(g1, [g2], CreatedAt) == [g2, g1] by {
      assert [g2][1..] == [];
    }
    assert ProjectGenerations(all, "P") == [g2, g1];
    var r1, r2, r3 := RowOf(g2, i2), RowOf(g2, i3), RowOf(g1, i1);
    assert Rows(g2) == [r1, r2];
    assert Rows(g1) == [r3];
    assert [g2, g1][1..] == [g1];
    assert [g1][1..] == [];
    assert Flatten([g1]) == [r3] by {
      assert Flatten([g1]) == Rows(g1) + Flatten([]);
    }
    assert Flatten([g2, g1]) == Rows(g2) + Flatten([g1]);
    assert Flatten([g2, g1]) == [r1, r2, r3];
    var flat := [r1, r2, r3];
    assert flat[1..] == [r2, r3];
    assert flat[1..][1..] == [r3];
    assert [r3][1..] == [];
    assert Seqs.SortDesc([r3], RowCreatedAt) == [r3];
    assert Seqs.InsertDesc(r2, [r3], RowCreatedAt) == [r2, r3];
    assert Seqs.SortDesc([r2, r3], RowCreatedAt) == [r2, r3];
    assert Seqs.InsertDesc(r1, [r2, r3], RowCreatedAt) == [r1, r2, r3];
  }

  /* ---------- the store ---------- */

  /** The persisted collection, held as the field `generations`. */
  class GalleryStore {
    var generations: seq<LocalGeneration>

    /** `loadAll()`: what is persisted (nothing stored, or a blob that fails to parse, reads as []). */
    constructor (persisted: seq<LocalGeneration>)
      ensures generations == persisted
    {
      generations := persisted;
    }

    /**
     * `saveGeneration(input)`. The clock reading `now` and the random id `freshId`
     * (used only when the input has no id) are parameters.
     */
    method SaveGeneration(input: GenerationInput, now: int, freshId: string) returns (gen: LocalGeneration)
      modifies this
      ensures gen.id == (if input.id.Some? then input.id.value else freshId)
      ensures gen.createdAt == now
      ensures gen.projectId == input.projectId && gen.prompt == input.prompt && gen.mode == input.mode
      ensures gen.images == (if input.images.Some? then input.images.value else [])
      ensures generations == old(generations) + [gen]
    {
      gen := LocalGeneration(input.id.GetOr(freshId), input.projectId, input.prompt, input.mode, now, input.images.GetOr([]));
      generations := generations + [gen];
    }

    /**
     * `appendImages(genId, imgs)`: the first generation with that id gets `imgs`
     * after its images; an unknown id changes nothing. No generation is created.
     */
    method AppendImages(genId: string, imgs: seq<LocalImageItem>)
      modifies this
      ensures |generations| == |old(generations)|
      ensures Seqs.FindIndex(old(generations), HasId(genId)) == -1 ==> generations == old(generations)
      ensures var ix := Seqs.FindIndex(old(generations), HasId(genId));
        ix != -1 ==>
          && generations[ix] == old(generations)[ix].(images := old(generations)[ix].images + imgs)
          && forall i :: 0 <= i < |generations| && i != ix ==> generations[i] == old(generations)[i]
    {
      var ix := Seqs.FindIndex(generations, HasId(genId));
      if ix == -1 {
        return;
      }
      generations := generations[ix := generations[ix].(images := generations[ix].images + imgs)];
    }

    /** `listGenerations(projectId)`. */
    method ListGenerations(projectId: string) returns (r: seq<LocalGeneration>)
      ensures r == ProjectGenerations(generations, projectId)
      ensures Seqs.SortedDesc(r, CreatedAt)
      ensures forall g :: g in r <==> g in generations && g.projectId == projectId
    {
      r := Seqs.SortDesc(Seqs.Filter(generations, InProject(projectId)), CreatedAt);
      ProjectGenerationsSpec(generations, projectId);
    }

    /** `listImagesByProject(projectId)`: nested loops fill `flat`, which is then sorted newest first. */
    method ListImagesByProject(projectId: string) returns (flat: seq<ProjectImageFlat>)
      ensures flat == ProjectImages(generations, projectId)
      ensures Seqs.SortedDesc(flat, RowCreatedAt)
    {
      var gens := ListGenerations(projectId);
      flat := [];
      var i := 0;
      while i < |gens|
        invariant 0 <= i <= |gens|
        invariant flat == Flatten(gens[..i])
      {
        var g := gens[i];
        var j := 0;
        while j < |g.images|
          invariant 0 <= j <= |g.images|
          invariant flat == Flatten(gens[..i]) + Rows(g)[..j]
        {
          flat := flat + [ProjectImageFlat(g.id, g.prompt, g.mode, g.createdAt, g.images[j])];
          assert Rows(g)[..j + 1] == Rows(g)[..j] + [Rows(g)[j]];
          j := j + 1;
        }
        FlattenPrefixStep(gens, i);
        assert Rows(g)[..j] == Rows(g);
        i := i + 1;
      }
      assert gens[..i] == gens;
      flat := Seqs.SortDesc(flat, RowCreatedAt);
      ProjectImagesSpec(generations, projectId);
    }

    /**
     * `removeImage(projectId, genId, imageId)`: in the first generation matching both
     * ids, every image with `imageId` is dropped; nothing else changes.
     */
    method RemoveImage(projectId: string, genId: string, imageId: string)
      modifies this
      ensures |generations| == |old(generations)|
      ensures Seqs.FindIndex(old(generations), IsTarget(projectId, genId)) == -1 ==> generations == old(generations)
      ensures var gi := Seqs.FindIndex(old(generations), IsTarget(projectId, genId));
        gi != -1 ==>
          && generations[gi] == old(generations)[gi].(images := Seqs.Filter(old(generations)[gi].images, NotImage(imageId)))
          && (forall img | img in generations[gi].images :: img.id != imageId)
          && (forall img | img in old(generations)[gi].images && img.id != imageId :: img in generations[gi].images)
          && forall i :: 0 <= i < |generations| && i != gi ==> generations[i] == old(generations)[i]
    {
      var gi := Seqs.FindIndex(generations, IsTarget(projectId, genId));
      if gi == -1 {
        return;
      }
      generations := generations[gi := generations[gi].(images := Seqs.Filter(generations[gi].images, NotImage(imageId)))];
    }

    /**
     * `removeGeneration(projectId, genId)`: every generation matching both ids
     * goes; all others stay, in their order.
     */
    method RemoveGeneration(projectId: string, genId: string)
      modifies this
      ensures generations == Seqs.Filter(old(generations), NotTarget(projectId, genId))
      ensures forall g | g in generations :: !(g.projectId == projectId && g.id == genId)
      ensures forall g | g in old(generations) && !(g.projectId == projectId && g.id == genId) :: g in generations
    {
      generations := Seqs.Filter(generations, NotTarget(projectId, genId));
    }
  }

  /** Removing a generation twice is removing it once. */
  lemma {:induction false} RemoveGenerationIdempotent(all: seq<LocalGeneration>, projectId: string, genId: string)
    ensures Seqs.Filter(Seqs.Filter(all, NotTarget(projectId, genId)), NotTarget(projectId, genId))
         == Seqs.Filter(all, NotTarget(projectId, genId))
  {
    var once := Seqs.Filter(all, NotTarget(projectId, genId));
    Seqs.FilterKeepsAll(once, NotTarget(projectId, genId));
  }
}
