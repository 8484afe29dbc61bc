/**
 * app/users/page.jsx: registered users fetched once, given a `userId`
 * fallback, searched over three optional fields and sorted by the chosen key.
 */
module UsersPage {
  import opened Wrappers
  import opened Text
  import opened Seqs
  import opened Sorting
  import opened Fetch

  /** A user record; each field may be missing from the JSON. */
  datatype User = User(
    id: string,
    userId: Option<string>,
    name: Option<string>,
    email: Option<string>,
    phone: Option<string>,
    createdAt: int)

  /** `u.userId || "-"`. */
  function UserIdOrDash(u: User): (r: string)
    ensures r != ""
    ensures Truthy(u.userId) ==> r == u.userId.value
    ensures !Truthy(u.userId) ==> r == "-"
  {
    if Truthy(u.userId) then u.userId.value else "-"
  }

  /** The `data.map(...)` of the fetch: every user gets a present, non-empty `userId`. */
  function Normalize(users: seq<User>): (r: seq<User>)
    ensures |r| == |users|
    ensures forall i :: 0 <= i < |r| ==> Truthy(r[i].userId)
    ensures forall i :: 0 <= i < |r| ==> r[i].userId == Some(UserIdOrDash(users[i]))
    ensures forall i :: 0 <= i < |r| ==> r[i].(userId := users[i].userId) == users[i]
  {
    seq(|users|, i requires 0 <= i < |users| => users[i].(userId := Some(UserIdOrDash(users[i]))))
  }

  /** Normalising twice is normalising once. */
  lemma NormalizeIdempotent(users: seq<User>)
    ensures Normalize(Normalize(users)) == Normalize(users)
  {
  }

  /** `f?.toLowerCase().includes(search.toLowerCase())`: a missing field never matches. */
  predicate FieldMatches(f: Option<string>, search: string) {
    f.Some? && Contains(Lower(f.value), Lower(search))
  }

  predicate MatchesSearch(u: User, search: string) {
    FieldMatches(u.name, search) || FieldMatches(u.email, search) || FieldMatches(u.userId, search)
  }

  function SearchFilter(search: string): User -> bool {
    (u: User) => MatchesSearch(u, search)
  }

  /** The search step: filter only when the search is not empty. */
  function Searched(users: seq<User>, search: string): (r: seq<User>)
    ensures forall u :: u in r <==> u in users && (search == "" || MatchesSearch(u, search))
    ensures IsSubsequence(r, users)
    ensures forall u :: multiset(r)[u] == if search == "" || MatchesSearch(u, search) then multiset(users)[u] else 0
  {
    FilterSubsequence(users, SearchFilter(search));
    FilterMultiset(users, SearchFilter(search));
    SubsequenceReflexive(users);
    if search != "" then Filter(users, SearchFilter(search)) else users
  }

  /** The name a comparator reads; a missing one is taken as "". */
  function NameKey(u: User): string {
    u.name.GetOr("")
  }

  /** The email a comparator reads; a missing one is taken as "". */
  function EmailKey(u: User): string {
    u.email.GetOr("")
  }

  predicate NameAsc(a: User, b: User) {
    StrLe(NameKey(a), NameKey(b))
  }

  predicate NameDesc(a: User, b: User) {
    StrLe(NameKey(b), NameKey(a))
  }

  predicate EmailAsc(a: User, b: User) {
    StrLe(EmailKey(a), EmailKey(b))
  }

  predicate EmailDesc(a: User, b: User) {
    StrLe(EmailKey(b), EmailKey(a))
  }

  /** `getTime(a) - getTime(b) <= 0`. */
  predicate DateAsc(a: User, b: User) {
    a.createdAt <= b.createdAt
  }

  /** `getTime(b) - getTime(a) <= 0`. */
  predicate DateDesc(a: User, b: User) {
    b.createdAt <= a.createdAt
  }

  const SortKeys: set<string> := {"name-asc", "name-desc", "email-asc", "email-desc", "date-asc", "date-desc"}

  /** The comparator of the `switch (sortBy)`; the default case sorts nothing. */
  function SortRelation(sortBy: string): (r: Option<(User, User) -> bool>)
    ensures r.Some? <==> sortBy in SortKeys
    ensures r.Some? ==> TotalPreorder(r.value)
  {
    StrLeOrder();
    if sortBy == "name-asc" then Some(NameAsc)
    else if sortBy == "name-desc" then Some(NameDesc)
    else if sortBy == "email-asc" then Some(EmailAsc)
    else if sortBy == "email-desc" then Some(EmailDesc)
    else if sortBy == "date-asc" then Some(DateAsc)
    else if sortBy == "date-desc" then Some(DateDesc)
    else None
  }

  /** What the search + sort effect stores in `filteredUsers`. */
  function UsersView(users: seq<User>, search: string, sortBy: string): (r: seq<User>)
    ensures multiset(r) == multiset(Searched(users, search))
    ensures forall u :: u in r <==> u in users && (search == "" || MatchesSearch(u, search))
  {
    var filtered := Searched(users, search);
    match SortRelation(sortBy)
    case Some(le) =>
      SortMultiset(filtered, le);
      var r := Sort(filtered, le);
      assert forall u :: u in r <==> u in multiset(r);
      r
    case None => filtered
  }

  /** Each sort key orders the view by its field and direction. */
  lemma UsersViewSorted(users: seq<User>, search: string, sortBy: string)
    ensures var r := UsersView(users, search, sortBy);
            (sortBy == "name-asc" ==> forall i, j :: 0 <= i < j < |r| ==> StrLe(NameKey(r[i]), NameKey(r[j]))) &&
            (sortBy == "name-desc" ==> forall i, j :: 0 <= i < j < |r| ==> StrLe(NameKey(r[j]), NameKey(r[i]))) &&
            (sortBy == "email-asc" ==> forall i, j :: 0 <= i < j < |r| ==> StrLe(EmailKey(r[i]), EmailKey(r[j]))) &&
            (sortBy == "email-desc" ==> forall i, j :: 0 <= i < j < |r| ==> StrLe(EmailKey(r[j]), EmailKey(r[i]))) &&
            (sortBy == "date-asc" ==> forall i, j :: 0 <= i < j < |r| ==> r[i].createdAt <= r[j].createdAt) &&
            (sortBy == "date-desc" ==> forall i, j :: 0 <= i < j < |r| ==> r[i].createdAt >= r[j].createdAt)
  {
    var rel := SortRelation(sortBy);
    if rel.Some? {
      SortSorted(Searched(users, search), rel.value);
    }
  }

  /** An unrecognised `sortBy` leaves the searched users in their original order. */
  lemma UnknownSortKeepsOrder(users: seq<User>, search: string, sortBy: string)
    requires sortBy !in SortKeys
    ensures UsersView(users, search, sortBy) == Searched(users, search)
    ensures IsSubsequence(UsersView(users, search, sortBy), users)
  {
  }

  /** The state of the users screen. */
  class UsersScreen {
    var users: seq<User>
    var filteredUsers: seq<User>
    var loading: bool
    var error: string
    var search: string
    var sortBy: string

    constructor ()
      ensures users == [] && filteredUsers == [] && loading && error == ""
      ensures search == "" && sortBy == "name-asc"
    {
      users, filteredUsers, loading, error := [], [], true, "";
      search, sortBy := "", "name-asc";
    }

    /**
     * `fetchUsers`: an ok response stores the normalised users in both lists;
     * a non-ok one raises "Failed to fetch users" and a throw its own message
     * (`thrown`), which go to `error`; loading ends in every case.
     */
    method FetchUsers(outcome: Outcome<seq<User>>, thrown: string)
      modifies this
      ensures outcome.Ok() ==> users == Normalize(outcome.body) && filteredUsers == users && error == old(error)
      ensures outcome.Responded? && !outcome.ok ==>
                error == "Failed to fetch users" && users == old(users) && filteredUsers == old(filteredUsers)
      ensures outcome.Threw? ==> error == thrown && users == old(users) && filteredUsers == old(filteredUsers)
      ensures !loading && search == old(search) && sortBy == old(sortBy)
    {
      match outcome {
        case Threw =>
          error := thrown;
        case Responded(ok, data) =>
          if !ok {
            error := "Failed to fetch users";
          } else {
            var normalized := Normalize(data);
            users := normalized;
            filteredUsers := normalized;
          }
      }
      loading := false;
    }

    /**
     * The search + sort effect: a copy of the searched users is sorted in
     * place by the chosen comparator and stored in `filteredUsers`.
     */
    method RecomputeView()
      modifies this
      ensures filteredUsers == UsersView(users, search, sortBy)
      ensures users == old(users) && loading == old(loading) && error == old(error)
      ensures search == old(search) && sortBy == old(sortBy)
    {
      var filtered := Searched(users, search);
      var rel := SortRelation(sortBy);
      if rel.Some? {
        var a := new User[|filtered|](i requires 0 <= i < |filtered| => filtered[i]);
        assert a[..] == filtered;
        SortArray(a, rel.value);
        filteredUsers := a[..];
      } else {
        filteredUsers := filtered;
      }
    }
  }

  /** The stored users of an ok fetch all match a search for their own non-empty `userId`. */
  lemma NormalizedUsersFindable(users: seq<User>, i: int)
    requires 0 <= i < |users|
    ensures MatchesSearch(Normalize(users)[i], Normalize(users)[i].userId.value)
  {
    var u := Normalize(users)[i];
    ContainsReflexive(Lower(u.userId.value));
  }
}
