/**
 * app/collections/page.jsx: product collections with a title search, four
 * sort orders, an add / rename form and per-row delete and status toggle.
 */
module CollectionsPage {
  import opened Wrappers
  import opened Text
  import opened Seqs
  import opened Sorting
  import opened Fetch

  datatype Collection = Collection(id: string, title: string, isActive: bool, createdAt: int)

  /** A request a handler sends: verb, URL and, for a save, the `title` of the JSON body. */
  datatype Request = Request(verb: string, url: string, title: Option<string>)

  /** `a.title.localeCompare(b.title) <= 0` ("az"). */
  predicate TitleAsc(a: Collection, b: Collection) {
    StrLe(a.title, b.title)
  }

  /** `b.title.localeCompare(a.title) <= 0` ("za"). */
  predicate TitleDesc(a: Collection, b: Collection) {
    StrLe(b.title, a.title)
  }

  /** `new Date(b.createdAt) - new Date(a.createdAt) <= 0` ("latest"). */
  predicate Latest(a: Collection, b: Collection) {
    b.createdAt <= a.createdAt
  }

  /** `new Date(a.createdAt) - new Date(b.createdAt) <= 0` ("oldest"). */
  predicate Oldest(a: Collection, b: Collection) {
    a.createdAt <= b.createdAt
  }

  /** The comparator the `sort` choice selects; any other value sorts nothing. */
  function SortRelation(sort: string): (r: Option<(Collection, Collection) -> bool>)
    ensures r.Some? <==> sort in {"az", "za", "latest", "oldest"}
    ensures r.Some? ==> TotalPreorder(r.value)
  {
    StrLeOrder();
    if sort == "az" then Some(TitleAsc)
    else if sort == "za" then Some(TitleDesc)
    else if sort == "latest" then Some(Latest)
    else if sort == "oldest" then Some(Oldest)
    else None
  }

  /** The lowered title contains the lowered, untrimmed search. */
  predicate TitleMatches(search: string, c: Collection) {
    Contains(Lower(c.title), Lower(search))
  }

  function TitleFilter(search: string): Collection -> bool {
    c => TitleMatches(search, c)
  }

  /** The search step: filter only when the trimmed search is not empty. */
  function Searched(collections: seq<Collection>, search: string): (r: seq<Collection>)
    ensures forall c :: c in r <==> c in collections && (IsBlank(search) || TitleMatches(search, c))
    ensures IsSubsequence(r, collections)
    ensures forall c :: multiset(r)[c] ==
              if IsBlank(search) || TitleMatches(search, c) then multiset(collections)[c] else 0
  {
    FilterSubsequence(collections, TitleFilter(search));
    FilterMultiset(collections, TitleFilter(search));
    SubsequenceReflexive(collections);
    if !IsBlank(search) then Filter(collections, TitleFilter(search)) else collections
  }

  /** What the search + sort effect stores in `filtered`. */
  function CollectionsView(collections: seq<Collection>, search: string, sort: string): (r: seq<Collection>)
    ensures multiset(r) == multiset(Searched(collections, search))
    ensures forall c :: c in r <==> c in collections && (IsBlank(search) || TitleMatches(search, c))
  {
    var data := Searched(collections, search);
    match SortRelation(sort)
    case Some(le) =>
      SortMultiset(data, le);
      var r := Sort(data, le);
      assert forall c :: c in r <==> c in multiset(r);
      r
    case None => data
  }

  /** A blank search keeps every collection, each as often as it occurs. */
  lemma BlankSearchKeepsAll(collections: seq<Collection>, search: string, sort: string)
    requires IsBlank(search)
    ensures multiset(CollectionsView(collections, search, sort)) == multiset(collections)
  {
  }

  /** Each sort choice orders the view by its key and direction. */
  lemma ViewOrdered(collections: seq<Collection>, search: string, sort: string)
    ensures var r := CollectionsView(collections, search, sort);
            (sort == "az" ==> forall i, j :: 0 <= i < j < |r| ==> StrLe(r[i].title, r[j].title)) &&
            (sort == "za" ==> forall i, j :: 0 <= i < j < |r| ==> StrLe(r[j].title, r[i].title)) &&
            (sort == "latest" ==> forall i, j :: 0 <= i < j < |r| ==> r[i].createdAt >= r[j].createdAt) &&
            (sort == "oldest" ==> forall i, j :: 0 <= i < j < |r| ==> r[i].createdAt <= r[j].createdAt)
  {
    var rel := SortRelation(sort);
    if rel.Some? {
      SortSorted(Searched(collections, search), rel.value);
    }
  }

  /** Any other sort value leaves the searched list in its original order. */
  lemma UnknownSortKeepsOrder(collections: seq<Collection>, search: string, sort: string)
    requires sort !in {"az", "za", "latest", "oldest"}
    ensures CollectionsView(collections, search, sort) == Searched(collections, search)
    ensures IsSubsequence(CollectionsView(collections, search, sort), collections)
  {
  }

  /**
   * The request `handleSubmit` sends: none for a blank (trimmed) title; with
   * a truthy `editingId` a PUT to the rename URL of that collection, otherwise a
   * POST to the collection URL; the body carries the untrimmed title.
   */
  function SubmitRequest(apiUrl: string, title: string, editingId: Option<string>): (r: Option<Request>)
    ensures r.None? <==> IsBlank(title)
    ensures r.Some? ==> r.value.title == Some(title)
    ensures r.Some? && Truthy(editingId) ==>
              r.value.verb == "PUT" && r.value.url == apiUrl + "/" + editingId.value + "/edit-name"
    ensures r.Some? && !Truthy(editingId) ==> r.value.verb == "POST" && r.value.url == apiUrl
  {
    if IsBlank(title) then None
    else if Truthy(editingId) then Some(Request("PUT", apiUrl + "/" + editingId.value + "/edit-name", Some(title)))
    else Some(Request("POST", apiUrl, Some(title)))
  }

  /** `handleDelete(id)`: a DELETE of the collection URL, sent only after the confirmation. */
  function DeleteRequest(apiUrl: string, id: string, confirmed: bool): (r: Option<Request>)
    ensures r.Some? <==> confirmed
    ensures r.Some? ==> r.value == Request("DELETE", apiUrl + "/" + id, None)
  {
    if confirmed then Some(Request("DELETE", apiUrl + "/" + id, None)) else None
  }

  /** `handleToggleStatus(id)`: a PATCH of the toggle URL of that collection. */
  function ToggleStatusRequest(apiUrl: string, id: string): (r: Request)
    ensures r.verb == "PATCH" && r.title == None
    ensures r.url == apiUrl + "/" + id + "/toggle-status"
  {
    Request("PATCH", apiUrl + "/" + id + "/toggle-status", None)
  }

  /** The id that `apiUrl + "/" + id + suffix` was built from, read back by length. */
  lemma RecordUrlId(apiUrl: string, id: string, id2: string, suffix: string)
    requires apiUrl + "/" + id + suffix == apiUrl + "/" + id2 + suffix
    ensures id == id2
  {
    var u := apiUrl + "/" + id + suffix;
    assert |id| == |id2|;
    assert u[|apiUrl| + 1..|apiUrl| + 1 + |id|] == id;
    assert (apiUrl + "/" + id2 + suffix)[|apiUrl| + 1..|apiUrl| + 1 + |id2|] == id2;
  }

  /**
   * The rename, toggle and delete requests address one record each: their
   * URLs start with the collection URL and a slash, and two ids give the same
   * URL only when they are the same id.
   */
  lemma RecordUrlsIdentifyTheRecord(apiUrl: string, title: string, id: string, id2: string)
    requires !IsBlank(title) && id != "" && id2 != ""
    ensures var u := SubmitRequest(apiUrl, title, Some(id)).value.url;
            IsPrefix(apiUrl + "/", u) &&
            (u == SubmitRequest(apiUrl, title, Some(id2)).value.url <==> id == id2)
    ensures var u := ToggleStatusRequest(apiUrl, id).url;
            IsPrefix(apiUrl + "/", u) && (u == ToggleStatusRequest(apiUrl, id2).url <==> id == id2)
    ensures var u := DeleteRequest(apiUrl, id, true).value.url;
            IsPrefix(apiUrl + "/", u) && (u == DeleteRequest(apiUrl, id2, true).value.url <==> id == id2)
  {
    var put := SubmitRequest(apiUrl, title, Some(id)).value.url;
    if put == SubmitRequest(apiUrl, title, Some(id2)).value.url {
      RecordUrlId(apiUrl, id, id2, "/edit-name");
    }
    assert (apiUrl + "/" + id + "/edit-name")[..|apiUrl| + 1] == apiUrl + "/";
    var patch := ToggleStatusRequest(apiUrl, id).url;
    if patch == ToggleStatusRequest(apiUrl, id2).url {
      RecordUrlId(apiUrl, id, id2, "/toggle-status");
    }
    assert (apiUrl + "/" + id + "/toggle-status")[..|apiUrl| + 1] == apiUrl + "/";
    var del := DeleteRequest(apiUrl, id, true).value.url;
    if del == DeleteRequest(apiUrl, id2, true).value.url {
      assert apiUrl + "/" + id + "" == apiUrl + "/" + id;
      assert apiUrl + "/" + id2 + "" == apiUrl + "/" + id2;
      RecordUrlId(apiUrl, id, id2, "");
    }
    assert (apiUrl + "/" + id)[..|apiUrl| + 1] == apiUrl + "/";
  }

  /** The state of the collections screen. */
  class CollectionsScreen {
    var collections: seq<Collection>
    var filtered: seq<Collection>
    var title: string
    var search: string
    var sort: string
    var editingId: Option<string>
    var loading: bool

    constructor ()
      ensures collections == [] && filtered == [] && title == "" && search == ""
      ensures sort == "latest" && editingId == None && !loading
    {
      collections, filtered, title, search := [], [], "", "";
      sort, editingId, loading := "latest", None, false;
    }

    /** `fetchCollections`: a parsed body becomes both lists; a throw keeps them. */
    method FetchCollections(outcome: Outcome<seq<Collection>>)
      modifies this
      ensures outcome.Responded? ==> collections == outcome.body && filtered == outcome.body
      ensures outcome.Threw? ==> collections == old(collections) && filtered == old(filtered)
      ensures !loading
      ensures title == old(title) && search == old(search) && sort == old(sort) && editingId == old(editingId)
    {
      loading := true;
      if outcome.Responded? {
        collections := outcome.body;
        filtered := outcome.body;
      }
      loading := false;
    }

    /**
     * The search + sort effect: a copy of the searched list is sorted in place
     * with the chosen comparator and stored in `filtered`.
     */
    method RecomputeView()
      modifies this
      ensures filtered == CollectionsView(collections, search, sort)
      ensures collections == old(collections) && title == old(title) && search == old(search)
      ensures sort == old(sort) && editingId == old(editingId) && loading == old(loading)
    {
      var data := Searched(collections, search);
      var rel := SortRelation(sort);
      if rel.Some? {
        var a := new Collection[|data|](i requires 0 <= i < |data| => data[i]);
        assert a[..] == data;
        SortArray(a, rel.value);
        filtered := a[..];
      } else {
        filtered := data;
      }
    }

    /**
     * `handleSubmit`: the request of `SubmitRequest`; when one was sent and
     * did not throw, the form is cleared (the list is then fetched again).
     */
    method HandleSubmit(apiUrl: string, sent: Outcome<()>) returns (request: Option<Request>)
      modifies this
      ensures request == SubmitRequest(apiUrl, old(title), old(editingId))
      ensures request.Some? && sent.Responded? ==> title == "" && editingId == None
      ensures request.None? || sent.Threw? ==> title == old(title) && editingId == old(editingId)
      ensures collections == old(collections) && filtered == old(filtered) && search == old(search)
      ensures sort == old(sort) && loading == old(loading)
    {
      request := SubmitRequest(apiUrl, title, editingId);
      if request.None? {
        return;
      }
      if sent.Responded? {
        title := "";
        editingId := None;
      }
    }

    /** `handleEdit(col)`: the form takes the collection's title and id. */
    method HandleEdit(col: Collection)
      modifies this
      ensures title == col.title && editingId == Some(col.id)
      ensures collections == old(collections) && filtered == old(filtered) && search == old(search)
      ensures sort == old(sort) && loading == old(loading)
    {
      title := col.title;
      editingId := Some(col.id);
    }

    /** The Cancel button of the form: title and id are cleared. */
    method CancelEdit()
      modifies this
      ensures title == "" && editingId == None
      ensures collections == old(collections) && filtered == old(filtered) && search == old(search)
      ensures sort == old(sort) && loading == old(loading)
    {
      title := "";
      editingId := None;
    }
  }
}
