/**
 * app/customers/page.jsx: the customers table. Its memo starts from the held
 * `customers` array itself, so when neither the search nor the status filter
 * applies, the sort reorders the held array in place.
 */
module CustomersPage {
  import opened Wrappers
  import opened Text
  import opened Seqs
  import opened Sorting

  /** A customer; `registered` is the timestamp `new Date(registered)` denotes. */
  datatype Customer = Customer(
    id: int,
    name: string,
    email: string,
    phone: string,
    totalOrders: int,
    totalSpent: int,
    status: string,
    registered: int)

  /** Name and email are compared lowered; the phone against the raw term. */
  predicate MatchesSearch(c: Customer, searchTerm: string) {
    Contains(Lower(c.name), Lower(searchTerm)) ||
    Contains(Lower(c.email), Lower(searchTerm)) ||
    Contains(c.phone, searchTerm)
  }

  function SearchFilter(searchTerm: string): Customer -> bool {
    (c: Customer) => MatchesSearch(c, searchTerm)
  }

  function StatusFilter(statusFilter: string): Customer -> bool {
    (c: Customer) => c.status == statusFilter
  }

  predicate Keep(c: Customer, searchTerm: string, statusFilter: string) {
    (searchTerm == "" || MatchesSearch(c, searchTerm)) &&
    (statusFilter == "All" || c.status == statusFilter)
  }

  function KeepFilter(searchTerm: string, statusFilter: string): Customer -> bool {
    (c: Customer) => Keep(c, searchTerm, statusFilter)
  }

  /** The search and status steps of the memo. */
  function Selected(customers: seq<Customer>, searchTerm: string, statusFilter: string): (r: seq<Customer>)
    ensures forall c :: c in r <==> c in customers && Keep(c, searchTerm, statusFilter)
  {
    var searched := if searchTerm != "" then Filter(customers, SearchFilter(searchTerm)) else customers;
    if statusFilter != "All" then Filter(searched, StatusFilter(statusFilter)) else searched
  }

  /** The two steps are one filter by the conjunction of both predicates. */
  lemma SelectedIsOneFilter(customers: seq<Customer>, searchTerm: string, statusFilter: string)
    ensures Selected(customers, searchTerm, statusFilter) == Filter(customers, KeepFilter(searchTerm, statusFilter))
  {
    var keep := KeepFilter(searchTerm, statusFilter);
    if searchTerm != "" && statusFilter != "All" {
      FilterFuse(customers, SearchFilter(searchTerm), StatusFilter(statusFilter), keep);
    } else if searchTerm != "" {
      FilterExtensional(customers, SearchFilter(searchTerm), keep);
    } else if statusFilter != "All" {
      FilterExtensional(customers, StatusFilter(statusFilter), keep);
    } else {
      FilterAll(customers, keep);
    }
  }

  /** `b.totalOrders - a.totalOrders <= 0`. */
  predicate MostOrdersFirst(a: Customer, b: Customer) {
    b.totalOrders <= a.totalOrders
  }

  /** `b.totalSpent - a.totalSpent <= 0`. */
  predicate MostSpentFirst(a: Customer, b: Customer) {
    b.totalSpent <= a.totalSpent
  }

  /** `new Date(b.registered) - new Date(a.registered) <= 0`. */
  predicate NewestFirst(a: Customer, b: Customer) {
    b.registered <= a.registered
  }

  /** The comparator of a sort key; every one of them sorts descending. */
  function SortRelation(sortKey: string): (r: Option<(Customer, Customer) -> bool>)
    ensures r.Some? <==> sortKey in {"orders", "spent", "registered"}
    ensures r.Some? ==> TotalPreorder(r.value)
  {
    if sortKey == "orders" then Some(MostOrdersFirst)
    else if sortKey == "spent" then Some(MostSpentFirst)
    else if sortKey == "registered" then Some(NewestFirst)
    else None
  }

  /** The value `filteredCustomers` has, as a function of the array contents it starts from. */
  function CustomersView(customers: seq<Customer>, searchTerm: string, statusFilter: string, sortKey: string): (r: seq<Customer>)
    ensures multiset(r) == multiset(Filter(customers, KeepFilter(searchTerm, statusFilter)))
    ensures |r| == |Filter(customers, KeepFilter(searchTerm, statusFilter))|
  {
    SelectedIsOneFilter(customers, searchTerm, statusFilter);
    var filtered := Selected(customers, searchTerm, statusFilter);
    match SortRelation(sortKey)
    case Some(le) => SortMultiset(filtered, le); Sort(filtered, le)
    case None => filtered
  }

  /** The view holds exactly the customers satisfying both predicates. */
  lemma ViewMembers(customers: seq<Customer>, searchTerm: string, statusFilter: string, sortKey: string)
    ensures forall c :: c in CustomersView(customers, searchTerm, statusFilter, sortKey) <==>
                        c in customers && Keep(c, searchTerm, statusFilter)
  {
    var r := CustomersView(customers, searchTerm, statusFilter, sortKey);
    SelectedIsOneFilter(customers, searchTerm, statusFilter);
    assert forall c :: c in r <==> c in multiset(r);
    assert forall c :: c in Selected(customers, searchTerm, statusFilter) <==>
                       c in multiset(Selected(customers, searchTerm, statusFilter));
  }

  /** Every sort key orders the view descending by its field. */
  lemma ViewSorted(customers: seq<Customer>, searchTerm: string, statusFilter: string, sortKey: string)
    ensures var r := CustomersView(customers, searchTerm, statusFilter, sortKey);
            (sortKey == "orders" ==> forall i, j :: 0 <= i < j < |r| ==> r[i].totalOrders >= r[j].totalOrders) &&
            (sortKey == "spent" ==> forall i, j :: 0 <= i < j < |r| ==> r[i].totalSpent >= r[j].totalSpent) &&
            (sortKey == "registered" ==> forall i, j :: 0 <= i < j < |r| ==> r[i].registered >= r[j].registered)
  {
    var rel := SortRelation(sortKey);
    if rel.Some? {
      SortSorted(Selected(customers, searchTerm, statusFilter), rel.value);
    }
  }

  /** With no recognised sort key the view is the filtered list in array order. */
  lemma NoSortKeepsOrder(customers: seq<Customer>, searchTerm: string, statusFilter: string, sortKey: string)
    requires sortKey !in {"orders", "spent", "registered"}
    ensures CustomersView(customers, searchTerm, statusFilter, sortKey) == Filter(customers, KeepFilter(searchTerm, statusFilter))
  {
    SelectedIsOneFilter(customers, searchTerm, statusFilter);
  }

  /**
   * The phone is matched against the raw term, the name against the lowered
   * one: a phone "A" does not match the term "a", a name "A" does.
   */
  lemma PhoneIsCaseSensitive()
    ensures !MatchesSearch(Customer(1, "", "", "A", 0, 0, "Active", 0), "a")
    ensures MatchesSearch(Customer(2, "A", "", "", 0, 0, "Active", 0), "a")
  {
    assert Lower("a") == "a" && Lower("A") == "a" && Lower("") == "";
    assert !Contains("A", "a") by {
      assert "A"[..1] == "A" && "A"[1..] == "";
      assert !IsPrefix("a", "A") && !Contains("", "a");
    }
    assert Contains("a", "a") by {
      assert IsPrefix("a", "a");
    }
  }

  /** The screen's held state: the customers array, never replaced. */
  class CustomersScreen {
    const customers: array<Customer>
    var searchTerm: string
    var statusFilter: string
    var sortKey: string

    constructor (initial: seq<Customer>)
      ensures customers[..] == initial && fresh(customers)
      ensures searchTerm == "" && statusFilter == "All" && sortKey == ""
    {
      customers := new Customer[|initial|](i requires 0 <= i < |initial| => initial[i]);
      searchTerm, statusFilter, sortKey := "", "All", "";
      new;
      assert customers[..] == initial;
    }

    /**
     * `filteredCustomers`. With neither search nor status filter, `filtered`
     * is the held array itself and the sort reorders it; otherwise the sort
     * runs on a fresh filtered array and the held one is untouched.
     */
    method FilteredCustomers() returns (filtered: seq<Customer>)
      modifies customers
      ensures filtered == CustomersView(old(customers[..]), searchTerm, statusFilter, sortKey)
      ensures searchTerm == "" && statusFilter == "All" ==> customers[..] == filtered
      ensures searchTerm != "" || statusFilter != "All" ==> customers[..] == old(customers[..])
      ensures multiset(customers[..]) == multiset(old(customers[..]))
    {
      var rel := SortRelation(sortKey);
      if searchTerm == "" && statusFilter == "All" {
        if rel.Some? {
          SortMultiset(customers[..], rel.value);
          SortArray(customers, rel.value);
        }
        filtered := customers[..];
      } else {
        var data := Selected(customers[..], searchTerm, statusFilter);
        if rel.Some? {
          var a := new Customer[|data|](i requires 0 <= i < |data| => data[i]);
          assert a[..] == data;
          SortArray(a, rel.value);
          filtered := a[..];
        } else {
          filtered := data;
        }
      }
    }
  }
}
