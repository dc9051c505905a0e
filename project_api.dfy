/**
 * The projects collection: creating, listing (with the client-side fallback
 * used when the ordered query lacks its index), renaming, archiving, reading
 * and deleting project documents. The document store is a map from document
 * id to document; the clock and the id assigned by the store are parameters.
 */
module ProjectApi {
  import opened Wrappers
  import JsString
  import Seqs

  /** A stored project document (a project without its id). */
  datatype ProjectDoc = ProjectDoc(
    name: string,
    client: string,
    tags: seq<string>,
    createdAt: int,
    updatedAt: Option<int>,
    totalGenerations: int,
    ownerId: string,
    archived: bool)

  /** `{ id: d.id, ...d.data() }`. */
  datatype Project = Project(id: string, doc: ProjectDoc)

  datatype ProjectInput = ProjectInput(ownerId: string, name: string, client: Option<string>, tags: Option<seq<string>>)

  /** A rejected query: `message` is `None` when the error's message is not a string. */
  datatype StoreError = StoreError(message: Option<string>, code: Option<string>)

  /** What the ordered primary query yields: its snapshot in query order, or an error. */
  datatype QueryOutcome = Snapshot(docs: seq<(string, ProjectDoc)>) | QueryFailed(err: StoreError)

  datatype ListResult = Listed(rows: seq<Project>) | Thrown(err: StoreError)

  /** The error that means the composite index is missing, and only that one, triggers the fallback. */
  predicate IsMissingIndex(err: StoreError): (b: bool)
    ensures err.message.None? ==> !b
    ensures err.message.Some? && err.code == Some("failed-precondition") ==> b
  {
    err.message.Some? &&
    (JsString.Includes(err.message.value, "requires an index") || err.code == Some("failed-precondition"))
  }

  /** A typical missing-index message is recognised without any code. */
  lemma MissingIndexExample()
    ensures IsMissingIndex(StoreError(Some("The query requires an index."), None))
  {
    var m := "The query requires an index.";
    assert JsString.OccursAt(m, "requires an index", 10) by {
      assert m[10..10 + |"requires an index"|] == "requires an index";
    }
  }

  /** `b.updatedAt || 0`. */
  function UpdatedKey(p: Project): int
  {
    p.doc.updatedAt.GetOr(0)
  }

  predicate Matches(d: ProjectDoc, ownerId: string, archived: bool)
  {
    d.ownerId == ownerId && d.archived == archived
  }

  function ToProject(d: (string, ProjectDoc)): Project
  {
    Project(d.0, d.1)
  }

  class ProjectStore {
    var docs: map<string, ProjectDoc>

    constructor (initial: map<string, ProjectDoc>)
      ensures docs == initial
    {
      docs := initial;
    }

    /**
     * `createProject(input)`: the document written and the project returned
     * agree, with the defaults filled in; `newId` is the id the store assigns.
     */
    method CreateProject(input: ProjectInput, now: int, newId: string) returns (p: Project)
      modifies this
      ensures p.id == newId
      ensures p.doc == ProjectDoc(input.name, input.client.GetOr(""), input.tags.GetOr([]), now, Some(now), 0, input.ownerId, false)
      ensures docs == old(docs)[newId := p.doc]
    {
      var doc := ProjectDoc(input.name, input.client.GetOr(""), input.tags.GetOr([]), now, Some(now), 0, input.ownerId, false);
      docs := docs[newId := doc];
      p := Project(newId, doc);
    }

    /** The fallback: the same filters without ordering, the rows then sorted by `updatedAt`, newest first. */
    method FallbackList(ownerId: string, archived: bool) returns (rows: seq<Project>)
      ensures forall p :: p in rows <==> p.id in docs && p.doc == docs[p.id] && Matches(p.doc, ownerId, archived)
      ensures Seqs.NoDuplicates(rows)
      ensures Seqs.SortedDesc(rows, UpdatedKey)
    {
      // The snapshot comes back in an order the store chooses: any order will do.
      var remaining := set id | id in docs && Matches(docs[id], ownerId, archived);
      rows := [];
      while remaining != {}
        invariant forall p :: p in rows ==> p.id in docs && p.doc == docs[p.id] && Matches(p.doc, ownerId, archived) && p.id !in remaining
        invariant forall id :: id in docs && Matches(docs[id], ownerId, archived) ==> id in remaining || Project(id, docs[id]) in rows
        invariant forall id | id in remaining :: id in docs && Matches(docs[id], ownerId, archived)
        invariant forall i, j :: 0 <= i < j < |rows| ==> rows[i].id != rows[j].id
        decreases |remaining|
      {
        var id :| id in remaining;
        rows := rows + [Project(id, docs[id])];
        remaining := remaining - {id};
      }
      var unsorted := rows;
      rows := Seqs.SortDesc(rows, UpdatedKey);
      Seqs.SortDescSorted(unsorted, UpdatedKey);
      Seqs.PermutationNoDuplicates(unsorted, rows);
      forall p ensures p in rows <==> p in unsorted {
        assert p in rows <==> p in multiset(rows);
        assert p in unsorted <==> p in multiset(unsorted);
      }
    }

    /**
     * `listProjectsByOwner(ownerId, archived)`. The primary query's outcome is
     * `primary`; `fallbackError` is a failure of the fallback query, if any.
     */
    method ListProjectsByOwner(ownerId: string, archived: bool, primary: QueryOutcome, fallbackError: Option<StoreError>)
      returns (result: ListResult)
      ensures primary.Snapshot? ==> result == Listed(Seqs.Map(primary.docs, ToProject))
      ensures primary.QueryFailed? && !IsMissingIndex(primary.err) ==> result == Thrown(primary.err)
      ensures primary.QueryFailed? && IsMissingIndex(primary.err) && fallbackError.Some? ==> result == Thrown(fallbackError.value)
      ensures primary.QueryFailed? && IsMissingIndex(primary.err) && fallbackError.None? ==>
        && result.Listed?
        && (forall p :: p in result.rows <==> p.id in docs && p.doc == docs[p.id] && Matches(p.doc, ownerId, archived))
        && Seqs.NoDuplicates(result.rows)
        && Seqs.SortedDesc(result.rows, UpdatedKey)
    {
      match primary
      case Snapshot(snap) =>
        var rows: seq<Project> := [];
        var i := 0;
        while i < |snap|
          invariant 0 <= i <= |snap|
          invariant rows == Seqs.Map(snap[..i], ToProject)
        {
          rows := rows + [Project(snap[i].0, snap[i].1)];
          i := i + 1;
        }
        assert snap[..i] == snap;
        return Listed(rows);
      case QueryFailed(err) =>
        if !IsMissingIndex(err) {
          return Thrown(err);
        }
        if fallbackError.Some? {
          return Thrown(fallbackError.value);
        }
        var rows := FallbackList(ownerId, archived);
        return Listed(rows);
    }

    /** `renameProject(id, name)`: an update of a missing document fails and changes nothing. */
    method RenameProject(id: string, newName: string, now: int) returns (ok: bool)
      modifies this
      ensures ok <==> id in old(docs)
      ensures ok ==> docs == old(docs)[id := old(docs)[id].(name := newName, updatedAt := Some(now))]
      ensures !ok ==> docs == old(docs)
    {
      if id !in docs {
        return false;
      }
      docs := docs[id := docs[id].(name := newName, updatedAt := Some(now))];
      return true;
    }

    /** `archiveProject(id, archived)`: as renaming, for the archived flag. */
    method ArchiveProject(id: string, archived: bool, now: int) returns (ok: bool)
      modifies this
      ensures ok <==> id in old(docs)
      ensures ok ==> docs == old(docs)[id := old(docs)[id].(archived := archived, updatedAt := Some(now))]
      ensures !ok ==> docs == old(docs)
    {
      if id !in docs {
        return false;
      }
      docs := docs[id := docs[id].(archived := archived, updatedAt := Some(now))];
      return true;
    }

    /** `getProject(id)`: `null` for an absent id. */
    method GetProject(id: string) returns (r: Option<Project>)
      ensures r.None? <==> id !in docs
      ensures r.Some? ==> r.value.id == id && r.value.doc == docs[id]
    {
      if id !in docs {
        return None;
      }
      return Some(Project(id, docs[id]));
    }

    /** `deleteProject(id)`: exactly that document goes; deleting an absent one is not an error. */
    method DeleteProject(id: string)
      modifies this
      ensures docs == old(docs) - {id}
    {
      docs := docs - {id};
    }
  }
}
