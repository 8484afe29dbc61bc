/**
 * app/coupons/page.jsx: the coupon list, searched over code, discount and
 * expiry and always sorted by code.
 */
module CouponsPage {
  import opened Text
  import opened Seqs
  import opened Sorting

  datatype Coupon = Coupon(id: int, code: string, discount: string, expiry: string)

  predicate MatchesSearch(c: Coupon, search: string) {
    Contains(Lower(c.code), Lower(search)) ||
    Contains(Lower(c.discount), Lower(search)) ||
    Contains(Lower(c.expiry), Lower(search))
  }

  function SearchFilter(search: string): Coupon -> bool {
    (c: Coupon) => MatchesSearch(c, search)
  }

  /** `a.code.localeCompare(b.code) <= 0`. */
  predicate CodeAsc(a: Coupon, b: Coupon) {
    StrLe(a.code, b.code)
  }

  /** `b.code.localeCompare(a.code) <= 0`. */
  predicate CodeDesc(a: Coupon, b: Coupon) {
    StrLe(b.code, a.code)
  }

  /** The comparator: ascending for "asc", descending for any other order. */
  function CodeOrder(sortOrder: string): (le: (Coupon, Coupon) -> bool)
    ensures TotalPreorder(le)
  {
    StrLeOrder();
    if sortOrder == "asc" then CodeAsc else CodeDesc
  }

  /** The `filteredCoupons` memo. */
  function FilteredCoupons(coupons: seq<Coupon>, search: string, sortOrder: string): (r: seq<Coupon>)
    ensures multiset(r) == multiset(Filter(coupons, SearchFilter(search)))
    ensures forall c :: c in r <==> c in coupons && MatchesSearch(c, search)
  {
    var filtered := Filter(coupons, SearchFilter(search));
    SortMultiset(filtered, CodeOrder(sortOrder));
    var r := Sort(filtered, CodeOrder(sortOrder));
    assert forall c :: c in r <==> c in multiset(r);
    assert forall c :: c in filtered <==> c in multiset(filtered);
    r
  }

  /** The view is sorted by code: ascending for "asc", descending otherwise. */
  lemma FilteredCouponsSorted(coupons: seq<Coupon>, search: string, sortOrder: string)
    ensures var r := FilteredCoupons(coupons, search, sortOrder);
            (sortOrder == "asc" ==> forall i, j :: 0 <= i < j < |r| ==> StrLe(r[i].code, r[j].code)) &&
            (sortOrder != "asc" ==> forall i, j :: 0 <= i < j < |r| ==> StrLe(r[j].code, r[i].code))
  {
    SortSorted(Filter(coupons, SearchFilter(search)), CodeOrder(sortOrder));
  }

  /** An empty search keeps every coupon: the view is a permutation of all of them. */
  lemma EmptySearchKeepsAll(coupons: seq<Coupon>, sortOrder: string)
    ensures multiset(FilteredCoupons(coupons, "", sortOrder)) == multiset(coupons)
  {
    forall i | 0 <= i < |coupons| ensures SearchFilter("")(coupons[i]) {
      ContainsEmpty(Lower(coupons[i].code));
    }
    FilterAll(coupons, SearchFilter(""));
  }
}
