/**
 * app/products/page.jsx: the product list, searched over three optional
 * fields, with a confirmed delete; only an ok fetch replaces the list.
 */
module ProductsPage {
  import opened Wrappers
  import opened Text
  import opened Seqs
  import opened Fetch

  /** The fields of a product the list logic reads; each text field may be missing. */
  datatype Product = Product(id: string, name: Option<string>, brand: Option<string>, category: Option<string>)

  /** `f?.toLowerCase().includes(search.toLowerCase())`: a missing field never matches. */
  predicate FieldMatches(f: Option<string>, search: string) {
    f.Some? && Contains(Lower(f.value), Lower(search))
  }

  predicate MatchesSearch(p: Product, search: string) {
    FieldMatches(p.name, search) || FieldMatches(p.brand, search) || FieldMatches(p.category, search)
  }

  function SearchFilter(search: string): Product -> bool {
    (p: Product) => MatchesSearch(p, search)
  }

  /** `filteredProducts`: kept iff a present field contains the term; order is kept. */
  function FilteredProducts(products: seq<Product>, search: string): (r: seq<Product>)
    ensures forall p :: p in r <==> p in products && MatchesSearch(p, search)
    ensures IsSubsequence(r, products)
    ensures forall p :: multiset(r)[p] == if MatchesSearch(p, search) then multiset(products)[p] else 0
  {
    FilterSubsequence(products, SearchFilter(search));
    FilterMultiset(products, SearchFilter(search));
    Filter(products, SearchFilter(search))
  }

  /** With an empty search exactly the products having a name, a brand or a category stay. */
  lemma EmptySearchKeepsProductsWithAField(products: seq<Product>)
    ensures forall p :: p in FilteredProducts(products, "") <==>
                        p in products && (p.name.Some? || p.brand.Some? || p.category.Some?)
  {
    forall p: Product | p.name.Some? || p.brand.Some? || p.category.Some?
      ensures MatchesSearch(p, "")
    {
      if p.name.Some? {
        ContainsEmpty(Lower(p.name.value));
      } else if p.brand.Some? {
        ContainsEmpty(Lower(p.brand.value));
      } else {
        ContainsEmpty(Lower(p.category.value));
      }
    }
  }

  /** The delete: the products whose `_id` differs, in their order. */
  function RemoveById(products: seq<Product>, id: string): (r: seq<Product>)
    ensures forall p :: p in r <==> p in products && p.id != id
    ensures IsSubsequence(r, products)
    ensures forall p :: multiset(r)[p] == if p.id != id then multiset(products)[p] else 0
  {
    FilterSubsequence(products, (p: Product) => p.id != id);
    FilterMultiset(products, (p: Product) => p.id != id);
    Filter(products, (p: Product) => p.id != id)
  }

  /** The state of the products screen. */
  class ProductsScreen {
    var products: seq<Product>
    var loading: bool
    var search: string

    constructor ()
      ensures products == [] && loading && search == ""
    {
      products, loading, search := [], true, "";
    }

    /** `fetchProducts`: only an ok response replaces the list; loading ends in every case. */
    method FetchProducts(outcome: Outcome<seq<Product>>)
      modifies this
      ensures outcome.Ok() ==> products == outcome.body
      ensures !outcome.Ok() ==> products == old(products)
      ensures !loading && search == old(search)
    {
      loading := true;
      if outcome.Ok() {
        products := outcome.body;
      }
      loading := false;
    }

    /**
     * `handleDelete(id)`: without confirmation no request is sent (`sent` is
     * false) and nothing changes; a confirmed delete removes the product only
     * when the response is ok.
     */
    method HandleDelete(id: string, confirmed: bool, outcome: Outcome<()>) returns (sent: bool)
      modifies this
      ensures sent == confirmed
      ensures confirmed && outcome.Ok() ==> products == RemoveById(old(products), id)
      ensures !(confirmed && outcome.Ok()) ==> products == old(products)
      ensures loading == old(loading) && search == old(search)
    {
      if !confirmed {
        return false;
      }
      sent := true;
      if outcome.Ok() {
        products := RemoveById(products, id);
      }
    }
  }
}
