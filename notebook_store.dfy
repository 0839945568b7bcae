/**
 * The notebook list, the open notebook and its contents as the browser keeps them. Notebooks
 * and content records are plain objects told apart by their `_id`; every request's outcome is
 * a parameter.
 */
module NotebookClient {
  import opened Wrappers
  import opened Json
  import opened Collections
  import opened Client

  /** `list.map(o => o._id === id ? replacement : o)` */
  function ReplaceById(s: seq<Obj>, id: string, replacement: Obj): (r: seq<Obj>)
    ensures |r| == |s|
    ensures forall i :: 0 <= i < |s| && HasId(s[i], id) ==> r[i] == replacement
    ensures forall i :: 0 <= i < |s| && !HasId(s[i], id) ==> r[i] == s[i]
  {
    seq(|s|, i requires 0 <= i < |s| => if HasId(s[i], id) then replacement else s[i])
  }

  /** Replacing with an object that keeps the id is idempotent. */
  lemma ReplaceByIdIdempotent(s: seq<Obj>, id: string, replacement: Obj)
    requires HasId(replacement, id)
    ensures ReplaceById(ReplaceById(s, id, replacement), id, replacement) == ReplaceById(s, id, replacement)
  {
  }

  /** `list.map(o => o._id === id ? { ...o, ...patch } : o)` */
  function MergeById(s: seq<Obj>, id: string, patch: Obj): (r: seq<Obj>)
    ensures |r| == |s|
    ensures forall i :: 0 <= i < |s| && HasId(s[i], id) ==>
      r[i].Keys == s[i].Keys + patch.Keys
      && (forall k :: k in patch ==> r[i][k] == patch[k])
      && (forall k :: k in s[i] && k !in patch ==> r[i][k] == s[i][k])
    ensures forall i :: 0 <= i < |s| && !HasId(s[i], id) ==> r[i] == s[i]
  {
    seq(|s|, i requires 0 <= i < |s| => if HasId(s[i], id) then s[i] + patch else s[i])
  }

  /** A patch without an `_id` leaves every entry with the id it had. */
  lemma MergeKeepsIds(s: seq<Obj>, id: string, patch: Obj, other: string)
    requires "_id" !in patch
    ensures forall i :: 0 <= i < |s| ==> (HasId(MergeById(s, id, patch)[i], other) <==> HasId(s[i], other))
  {
  }

  /** Merging the same patch twice is merging it once. */
  lemma {:induction false} MergeIdempotent(s: seq<Obj>, id: string, patch: Obj)
    requires "_id" !in patch
    ensures MergeById(MergeById(s, id, patch), id, patch) == MergeById(s, id, patch)
  {
    var once := MergeById(s, id, patch);
    MergeKeepsIds(s, id, patch, id);
    forall i | 0 <= i < |s|
      ensures MergeById(once, id, patch)[i] == once[i]
    {
      if HasId(s[i], id) {
        assert once[i] + patch == once[i];
      }
    }
  }

  /** `list.filter(o => o._id !== id)` */
  function RemoveById(s: seq<Obj>, id: string): (r: seq<Obj>)
    ensures |r| <= |s|
    ensures forall o :: o in r <==> o in s && !HasId(o, id)
    ensures (forall i :: 0 <= i < |s| ==> !HasId(s[i], id)) ==> r == s
  {
    Filter(s, o => !HasId(o, id))
  }

  /** Removing by id undoes putting a record with that id in front of a list that had none. */
  lemma RemoveUndoesPrepend(s: seq<Obj>, c: Obj, id: string)
    requires HasId(c, id) && forall i :: 0 <= i < |s| ==> !HasId(s[i], id)
    ensures RemoveById([c] + s, id) == s
  {
    FilterAppend([c], s, o => !HasId(o, id));
    assert Filter([c], o => !HasId(o, id)) == [];
  }

  /** Removal keeps the order of what remains: it distributes over the halves of a list. */
  lemma RemoveByIdAppend(a: seq<Obj>, b: seq<Obj>, id: string)
    ensures RemoveById(a + b, id) == RemoveById(a, id) + RemoveById(b, id)
  {
    FilterAppend(a, b, o => !HasId(o, id));
  }

  /** `fetchNotebook`'s payload: the notebook and its content records. */
  datatype NotebookPage = NotebookPage(notebook: Obj, contents: seq<Obj>)

  class NotebookStore {
    var notebooks: seq<Obj>
    var currentNotebook: Option<Obj>
    var contents: seq<Obj>
    var isLoading: bool

    constructor ()
      ensures notebooks == [] && currentNotebook.None? && contents == [] && !isLoading
    {
      notebooks := [];
      currentNotebook := None;
      contents := [];
      isLoading := false;
    }

    method SetLoading(loading: bool)
      modifies this
      ensures isLoading == loading
      ensures notebooks == old(notebooks) && currentNotebook == old(currentNotebook) && contents == old(contents)
    {
      isLoading := loading;
    }

    /** `fetchNotebooks()`: the list is replaced on success; any failure answers `[]`. */
    method FetchNotebooks(fetched: Fetched<Envelope<seq<Obj>>>) returns (r: seq<Obj>)
      modifies this
      ensures !isLoading
      ensures currentNotebook == old(currentNotebook) && contents == old(contents)
      ensures fetched.Responded? && fetched.body.Ok? ==> notebooks == fetched.body.payload && r == notebooks
      ensures !(fetched.Responded? && fetched.body.Ok?) ==> notebooks == old(notebooks) && r == []
    {
      isLoading := true;
      if fetched.Responded? && fetched.body.Ok? {
        notebooks := fetched.body.payload;
        isLoading := false;
        return notebooks;
      }
      isLoading := false;
      return [];
    }

    /** `createNotebook(title, description)`: the new notebook goes in front. */
    method CreateNotebook(fetched: Fetched<Envelope<Obj>>) returns (r: Result<Obj, Option<string>>)
      modifies this
      ensures !isLoading
      ensures currentNotebook == old(currentNotebook) && contents == old(contents)
      ensures r.Success? <==> fetched.Responded? && fetched.body.Ok?
      ensures r.Success? ==> r.value == fetched.body.payload && notebooks == [r.value] + old(notebooks)
      ensures r.Failure? ==> notebooks == old(notebooks)
      ensures fetched.Responded? && fetched.body.Rejected? ==> r == Failure(fetched.body.message)
      ensures fetched.Threw? ==> r == Failure(Some(NetworkError))
    {
      isLoading := true;
      match fetched
      case Threw =>
        isLoading := false;
        return Failure(Some(NetworkError));
      case Responded(Ok(notebook)) =>
        notebooks := [notebook] + notebooks;
        isLoading := false;
        return Success(notebook);
      case Responded(Rejected(message)) =>
        isLoading := false;
        return Failure(message);
    }

    /** `fetchNotebook(notebookId)`: opens the notebook with its contents. */
    method FetchNotebook(fetched: Fetched<Envelope<NotebookPage>>) returns (r: Option<NotebookPage>)
      modifies this
      ensures !isLoading && notebooks == old(notebooks)
      ensures r.Some? <==> fetched.Responded? && fetched.body.Ok?
      ensures r.Some? ==> r.value == fetched.body.payload
                          && currentNotebook == Some(r.value.notebook) && contents == r.value.contents
      ensures r.None? ==> currentNotebook == old(currentNotebook) && contents == old(contents)
    {
      isLoading := true;
      if fetched.Responded? && fetched.body.Ok? {
        var page := fetched.body.payload;
        currentNotebook := Some(page.notebook);
        contents := page.contents;
        isLoading := false;
        return Some(page);
      }
      isLoading := false;
      return None;
    }

    /**
     * `updateNotebook(notebookId, title, description)`: every listed notebook with that id is
     * replaced, and the open notebook only if it is that one. The loading flag is not touched.
     */
    method UpdateNotebook(notebookId: string, fetched: Fetched<Envelope<Obj>>) returns (r: Option<Obj>)
      modifies this
      ensures isLoading == old(isLoading) && contents == old(contents)
      ensures r.Some? <==> fetched.Responded? && fetched.body.Ok?
      ensures r.Some? ==>
        && r.value == fetched.body.payload
        && notebooks == ReplaceById(old(notebooks), notebookId, r.value)
        && currentNotebook == (if old(currentNotebook).Some? && HasId(old(currentNotebook).value, notebookId)
                               then Some(r.value) else old(currentNotebook))
      ensures r.None? ==> notebooks == old(notebooks) && currentNotebook == old(currentNotebook)
    {
      if fetched.Responded? && fetched.body.Ok? {
        var notebook := fetched.body.payload;
        notebooks := ReplaceById(notebooks, notebookId, notebook);
        if currentNotebook.Some? && HasId(currentNotebook.value, notebookId) {
          currentNotebook := Some(notebook);
        }
        return Some(notebook);
      }
      return None;
    }

    /**
     * `deleteNotebook(notebookId)`: the notebook leaves the list, and the open notebook and its
     * contents are closed exactly when it was the one open.
     */
    method DeleteNotebook(notebookId: string, fetched: Fetched<Envelope<()>>) returns (success: bool)
      modifies this
      ensures isLoading == old(isLoading)
      ensures success <==> fetched.Responded? && fetched.body.Ok?
      ensures success ==> notebooks == RemoveById(old(notebooks), notebookId)
      ensures var closing := success && old(currentNotebook).Some? && HasId(old(currentNotebook).value, notebookId);
        && (closing ==> currentNotebook.None? && contents == [])
        && (!closing ==> currentNotebook == old(currentNotebook) && contents == old(contents))
      ensures !success ==> notebooks == old(notebooks)
    {
      if fetched.Responded? && fetched.body.Ok? {
        notebooks := RemoveById(notebooks, notebookId);
        if currentNotebook.Some? && HasId(currentNotebook.value, notebookId) {
          currentNotebook := None;
          contents := [];
        }
        return true;
      }
      return false;
    }

    /** `addContent(content)`: in front of the open notebook's contents. */
    method AddContent(content: Obj)
      modifies this
      ensures contents == [content] + old(contents)
      ensures notebooks == old(notebooks) && currentNotebook == old(currentNotebook) && isLoading == old(isLoading)
    {
      contents := [content] + contents;
    }

    /** `updateContent(contentId, updatedContent)` */
    method UpdateContent(contentId: string, patch: Obj)
      modifies this
      ensures contents == MergeById(old(contents), contentId, patch)
      ensures notebooks == old(notebooks) && currentNotebook == old(currentNotebook) && isLoading == old(isLoading)
    {
      contents := MergeById(contents, contentId, patch);
    }

    /** `removeContent(contentId)` */
    method RemoveContent(contentId: string)
      modifies this
      ensures contents == RemoveById(old(contents), contentId)
      ensures notebooks == old(notebooks) && currentNotebook == old(currentNotebook) && isLoading == old(isLoading)
    {
      contents := RemoveById(contents, contentId);
    }

    /** `clearCurrentNotebook()` */
    method ClearCurrentNotebook()
      modifies this
      ensures currentNotebook.None? && contents == []
      ensures notebooks == old(notebooks) && isLoading == old(isLoading)
    {
      currentNotebook := None;
      contents := [];
    }
  }
}
