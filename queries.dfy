/**
 * app/queries/page.jsx: customer queries with a text search, a status filter,
 * a status update patched into the snapshot by `_id`, and a confirmed delete.
 */
module QueriesPage {
  import opened Wrappers
  import opened Text
  import opened Seqs
  import opened Fetch

  /** A query record; `name` is always present, `email` and `message` may be missing. */
  datatype Query = Query(id: string, name: string, email: Option<string>, message: Option<string>, status: string)

  /** The search predicate: the lowered term occurs in the name, or in a present email or message. */
  predicate MatchesSearch(q: Query, searchTerm: string) {
    var t := Lower(searchTerm);
    Contains(Lower(q.name), t) ||
    (Truthy(q.email) && Contains(Lower(q.email.value), t)) ||
    (Truthy(q.message) && Contains(Lower(q.message.value), t))
  }

  function SearchPredicate(searchTerm: string): Query -> bool {
    (q: Query) => MatchesSearch(q, searchTerm)
  }

  function StatusPredicate(statusFilter: string): Query -> bool {
    (q: Query) => q.status == statusFilter
  }

  /** The `filteredQueries` memo: search (when the term is not empty), then status (unless "All"); no sort. */
  function FilteredQueries(queries: seq<Query>, searchTerm: string, statusFilter: string): (r: seq<Query>)
    ensures forall q :: q in r <==>
              q in queries &&
              (searchTerm == "" || MatchesSearch(q, searchTerm)) &&
              (statusFilter == "All" || q.status == statusFilter)
    ensures IsSubsequence(r, queries)
    ensures forall q :: multiset(r)[q] ==
              if (searchTerm == "" || MatchesSearch(q, searchTerm)) && (statusFilter == "All" || q.status == statusFilter)
              then multiset(queries)[q] else 0
  {
    var searched := if searchTerm != "" then Filter(queries, SearchPredicate(searchTerm)) else queries;
    FilterSubsequence(queries, SearchPredicate(searchTerm));
    FilterMultiset(queries, SearchPredicate(searchTerm));
    SubsequenceReflexive(queries);
    assert IsSubsequence(searched, queries);
    var statused := if statusFilter != "All" then Filter(searched, StatusPredicate(statusFilter)) else searched;
    FilterSubsequence(searched, StatusPredicate(statusFilter));
    FilterMultiset(searched, StatusPredicate(statusFilter));
    SubsequenceReflexive(searched);
    SubsequenceTransitive(statused, searched, queries);
    statused
  }

  /** An empty search applies no text filtering: the view is the status-filtered list. */
  lemma EmptySearchIsStatusFilter(queries: seq<Query>, statusFilter: string)
    ensures FilteredQueries(queries, "", statusFilter) ==
            if statusFilter == "All" then queries else Filter(queries, StatusPredicate(statusFilter))
  {
  }

  /** The status update: every record with `_id == id` becomes the returned record, the rest stay. */
  function ReplaceById(queries: seq<Query>, id: string, updated: Query): (r: seq<Query>)
    ensures |r| == |queries|
    ensures forall i :: 0 <= i < |r| ==> r[i] == if queries[i].id == id then updated else queries[i]
  {
    seq(|queries|, i requires 0 <= i < |queries| => if queries[i].id == id then updated else queries[i])
  }

  /** The delete: the records whose `_id` differs from id, in their order. */
  function RemoveById(queries: seq<Query>, id: string): (r: seq<Query>)
    ensures forall q :: q in r <==> q in queries && q.id != id
    ensures IsSubsequence(r, queries)
    ensures forall q: Query :: q.id != id ==> multiset(r)[q] == multiset(queries)[q]
  {
    FilterSubsequence(queries, (q: Query) => q.id != id);
    FilterMultiset(queries, (q: Query) => q.id != id);
    Filter(queries, (q: Query) => q.id != id)
  }

  /** The state of the queries screen. */
  class QueriesScreen {
    var queries: seq<Query>
    var loading: bool
    var updating: bool
    var searchTerm: string
    var statusFilter: string
    var deleteId: Option<string>
    var confirmDelete: bool

    constructor ()
      ensures queries == [] && loading && !updating && searchTerm == "" && statusFilter == "All"
      ensures deleteId == None && !confirmDelete
    {
      queries, loading, updating, searchTerm, statusFilter := [], true, false, "", "All";
      deleteId, confirmDelete := None, false;
    }

    /**
     * `fetchQueries`: the parsed body replaces the snapshot whatever `res.ok`
     * says; a throw leaves it; loading ends either way.
     */
    method FetchQueries(outcome: Outcome<seq<Query>>)
      modifies this
      ensures outcome.Responded? ==> queries == outcome.body
      ensures outcome.Threw? ==> queries == old(queries)
      ensures !loading
      ensures updating == old(updating) && deleteId == old(deleteId) && confirmDelete == old(confirmDelete)
      ensures searchTerm == old(searchTerm) && statusFilter == old(statusFilter)
    {
      loading := true;
      if outcome.Responded? {
        queries := outcome.body;
      }
      loading := false;
    }

    /**
     * `handleStatusChange(id, newStatus)`: the response body replaces the
     * matching records whatever `res.ok` says; a throw leaves the snapshot.
     */
    method HandleStatusChange(id: string, outcome: Outcome<Query>)
      modifies this
      ensures outcome.Responded? ==> queries == ReplaceById(old(queries), id, outcome.body)
      ensures outcome.Threw? ==> queries == old(queries)
      ensures !updating && loading == old(loading)
      ensures deleteId == old(deleteId) && confirmDelete == old(confirmDelete)
      ensures searchTerm == old(searchTerm) && statusFilter == old(statusFilter)
    {
      updating := true;
      if outcome.Responded? {
        queries := ReplaceById(queries, id, outcome.body);
      }
      updating := false;
    }

    /** The trash button of a row: remember its id and open the confirmation. */
    method AskDelete(id: string)
      modifies this
      ensures deleteId == Some(id) && confirmDelete
      ensures queries == old(queries) && loading == old(loading) && updating == old(updating)
      ensures searchTerm == old(searchTerm) && statusFilter == old(statusFilter)
    {
      deleteId, confirmDelete := Some(id), true;
    }

    /** The Cancel button of the confirmation: it closes; the remembered id stays. */
    method CancelDelete()
      modifies this
      ensures !confirmDelete && deleteId == old(deleteId)
      ensures queries == old(queries) && loading == old(loading) && updating == old(updating)
      ensures searchTerm == old(searchTerm) && statusFilter == old(statusFilter)
    {
      confirmDelete := false;
    }

    /**
     * `handleDelete()`: without a (truthy) `deleteId` nothing happens at all;
     * otherwise an ok response removes the records with that id, anything else
     * keeps them, and in every case the confirmation is closed and the id cleared.
     */
    method HandleDelete(outcome: Outcome<()>)
      modifies this
      ensures !Truthy(old(deleteId)) ==>
                queries == old(queries) && deleteId == old(deleteId) &&
                confirmDelete == old(confirmDelete) && updating == old(updating)
      ensures Truthy(old(deleteId)) ==>
                deleteId == None && !confirmDelete && !updating &&
                queries == if outcome.Ok() then RemoveById(old(queries), old(deleteId).value)
                           else old(queries)
      ensures searchTerm == old(searchTerm) && statusFilter == old(statusFilter) && loading == old(loading)
    {
      if !Truthy(deleteId) {
        return;
      }
      updating := true;
      if outcome.Ok() {
        queries := RemoveById(queries, deleteId.value);
      }
      updating := false;
      deleteId := None;
      confirmDelete := false;
    }
  }
}
