/**
 * app/orders/page.jsx: the orders table, searched by customer or product
 * name, filtered by order status and sorted by date or amount.
 */
module OrdersPage {
  import opened Text
  import opened Seqs
  import opened Sorting

  datatype Product = Product(name: string)

  datatype Order = Order(
    id: string,
    orderId: string,
    customerName: string,
    products: seq<Product>,
    totalQuantity: int,
    totalAmount: real,
    paymentMethod: string,
    orderStatus: string,
    createdAt: int)

  /** Some product's lowered name contains the lowered term (`o.products.some(...)`). */
  predicate SomeProductMatches(o: Order, searchTerm: string) {
    exists i :: 0 <= i < |o.products| && Contains(Lower(o.products[i].name), Lower(searchTerm))
  }

  predicate MatchesSearch(o: Order, searchTerm: string) {
    Contains(Lower(o.customerName), Lower(searchTerm)) || SomeProductMatches(o, searchTerm)
  }

  function SearchFilter(searchTerm: string): Order -> bool {
    (o: Order) => MatchesSearch(o, searchTerm)
  }

  function StatusFilter(statusFilter: string): Order -> bool {
    (o: Order) => o.orderStatus == statusFilter
  }

  /** Both predicates of the memo: the search (when the term is not empty) and the status (unless "All"). */
  predicate Keep(o: Order, searchTerm: string, statusFilter: string) {
    (searchTerm == "" || MatchesSearch(o, searchTerm)) &&
    (statusFilter == "All" || o.orderStatus == statusFilter)
  }

  /** The two filter steps of the memo, before the sort. */
  function Selected(orders: seq<Order>, searchTerm: string, statusFilter: string): (r: seq<Order>)
    ensures forall o :: o in r <==> o in orders && Keep(o, searchTerm, statusFilter)
    ensures IsSubsequence(r, orders)
  {
    var searched := if searchTerm != "" then Filter(orders, SearchFilter(searchTerm)) else orders;
    FilterSubsequence(orders, SearchFilter(searchTerm));
    SubsequenceReflexive(orders);
    var statused := if statusFilter != "All" then Filter(searched, StatusFilter(statusFilter)) else searched;
    FilterSubsequence(searched, StatusFilter(statusFilter));
    SubsequenceReflexive(searched);
    SubsequenceTransitive(statused, searched, orders);
    statused
  }

  /** The filter steps keep every matching order as often as it occurs and drop the rest. */
  lemma SelectedCounts(orders: seq<Order>, searchTerm: string, statusFilter: string)
    ensures forall o :: multiset(Selected(orders, searchTerm, statusFilter))[o] ==
                        if Keep(o, searchTerm, statusFilter) then multiset(orders)[o] else 0
  {
    var searched := if searchTerm != "" then Filter(orders, SearchFilter(searchTerm)) else orders;
    FilterMultiset(orders, SearchFilter(searchTerm));
    FilterMultiset(searched, StatusFilter(statusFilter));
  }

  /** `new Date(b.createdAt) - new Date(a.createdAt) <= 0`: newest first. */
  predicate NewestFirst(a: Order, b: Order) {
    b.createdAt <= a.createdAt
  }

  /** `b.totalAmount - a.totalAmount <= 0`: largest amount first. */
  predicate LargestFirst(a: Order, b: Order) {
    b.totalAmount <= a.totalAmount
  }

  /** The `filteredOrders` memo. */
  function FilteredOrders(orders: seq<Order>, searchTerm: string, statusFilter: string, sortKey: string): (r: seq<Order>)
    ensures forall o :: multiset(r)[o] == if Keep(o, searchTerm, statusFilter) then multiset(orders)[o] else 0
    ensures forall o :: o in r <==> o in orders && Keep(o, searchTerm, statusFilter)
  {
    var filtered := Selected(orders, searchTerm, statusFilter);
    SelectedCounts(orders, searchTerm, statusFilter);
    SortMultiset(filtered, NewestFirst);
    SortMultiset(filtered, LargestFirst);
    var r := if sortKey == "date" then Sort(filtered, NewestFirst)
             else if sortKey == "amount" then Sort(filtered, LargestFirst)
             else filtered;
    assert forall o :: o in r <==> o in multiset(r);
    assert forall o :: o in filtered <==> o in multiset(filtered);
    r
  }

  /** "date" orders newest first, "amount" orders by non-increasing total. */
  lemma OrdersSorted(orders: seq<Order>, searchTerm: string, statusFilter: string, sortKey: string)
    ensures var r := FilteredOrders(orders, searchTerm, statusFilter, sortKey);
            (sortKey == "date" ==> forall i, j :: 0 <= i < j < |r| ==> r[i].createdAt >= r[j].createdAt) &&
            (sortKey == "amount" ==> forall i, j :: 0 <= i < j < |r| ==> r[i].totalAmount >= r[j].totalAmount)
  {
    var filtered := Selected(orders, searchTerm, statusFilter);
    if sortKey == "date" {
      SortSorted(filtered, NewestFirst);
    } else if sortKey == "amount" {
      SortSorted(filtered, LargestFirst);
    }
  }

  /** Without a recognised sort key the surviving orders keep their original relative order. */
  lemma NoSortKeepsOrder(orders: seq<Order>, searchTerm: string, statusFilter: string, sortKey: string)
    requires sortKey != "date" && sortKey != "amount"
    ensures IsSubsequence(FilteredOrders(orders, searchTerm, statusFilter, sortKey), orders)
  {
  }

  /** Orders that tie under the sort keep their relative order (the JavaScript sort is stable). */
  lemma SortKeepsTiesInOrder(orders: seq<Order>, searchTerm: string, statusFilter: string, createdAt: int)
    ensures var tie := (o: Order) => o.createdAt == createdAt;
            Filter(FilteredOrders(orders, searchTerm, statusFilter, "date"), tie) ==
            Filter(Selected(orders, searchTerm, statusFilter), tie)
  {
    SortStable(Selected(orders, searchTerm, statusFilter), NewestFirst, (o: Order) => o.createdAt == createdAt);
  }

  /** Recomputing the memo over its own result changes nothing. */
  lemma FilteredOrdersIdempotent(orders: seq<Order>, searchTerm: string, statusFilter: string, sortKey: string)
    ensures var r := FilteredOrders(orders, searchTerm, statusFilter, sortKey);
            FilteredOrders(r, searchTerm, statusFilter, sortKey) == r
  {
    var r := FilteredOrders(orders, searchTerm, statusFilter, sortKey);
    assert forall i :: 0 <= i < |r| ==> r[i] in r;
    assert Selected(r, searchTerm, statusFilter) == r by {
      if searchTerm != "" {
        FilterAll(r, SearchFilter(searchTerm));
      }
      if statusFilter != "All" {
        FilterAll(r, StatusFilter(statusFilter));
      }
    }
    if sortKey == "date" {
      SortIdempotent(Selected(orders, searchTerm, statusFilter), NewestFirst);
    } else if sortKey == "amount" {
      SortIdempotent(Selected(orders, searchTerm, statusFilter), LargestFirst);
    }
  }
}
