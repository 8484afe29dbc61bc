/**
 * app/categories/page.jsx: categories with their subcategories, searched
 * over both, filtered by name, always sorted by name, and extended by the add
 * forms.
 */
module CategoriesPage {
  import opened Text
  import opened Seqs
  import opened Sorting

  datatype Category = Category(id: int, name: string, subcategories: seq<string>)

  /** Some lowered subcategory contains the lowered search (`subcategories.some(...)`). */
  predicate SomeSubcategoryMatches(cat: Category, search: string) {
    exists i :: 0 <= i < |cat.subcategories| && Contains(Lower(cat.subcategories[i]), Lower(search))
  }

  predicate MatchesSearch(cat: Category, search: string) {
    Contains(Lower(cat.name), Lower(search)) || SomeSubcategoryMatches(cat, search)
  }

  function SearchFilter(search: string): Category -> bool {
    (cat: Category) => MatchesSearch(cat, search)
  }

  function NameFilter(filterCategory: string): Category -> bool {
    (cat: Category) => cat.name == filterCategory
  }

  /** `a.name.localeCompare(b.name) <= 0`. */
  predicate NameAsc(a: Category, b: Category) {
    StrLe(a.name, b.name)
  }

  /** `b.name.localeCompare(a.name) <= 0`. */
  predicate NameDesc(a: Category, b: Category) {
    StrLe(b.name, a.name)
  }

  /** The comparator: ascending for "asc", descending for any other order. */
  function NameOrder(sortOrder: string): (le: (Category, Category) -> bool)
    ensures TotalPreorder(le)
  {
    StrLeOrder();
    if sortOrder == "asc" then NameAsc else NameDesc
  }

  /** The search and name-filter steps of the memo; the search always runs. */
  function Selected(categories: seq<Category>, search: string, filterCategory: string): (r: seq<Category>)
    ensures forall c :: c in r <==>
              c in categories && MatchesSearch(c, search) && (filterCategory == "All" || c.name == filterCategory)
    ensures IsSubsequence(r, categories)
    ensures forall c :: multiset(r)[c] ==
              if MatchesSearch(c, search) && (filterCategory == "All" || c.name == filterCategory)
              then multiset(categories)[c] else 0
  {
    var searched := Filter(categories, SearchFilter(search));
    FilterSubsequence(categories, SearchFilter(search));
    FilterMultiset(categories, SearchFilter(search));
    FilterSubsequence(searched, NameFilter(filterCategory));
    FilterMultiset(searched, NameFilter(filterCategory));
    SubsequenceReflexive(searched);
    var r := if filterCategory != "All" then Filter(searched, NameFilter(filterCategory)) else searched;
    SubsequenceTransitive(r, searched, categories);
    r
  }

  /** The `filteredCategories` memo. */
  function FilteredCategories(categories: seq<Category>, search: string, filterCategory: string, sortOrder: string): (r: seq<Category>)
    ensures multiset(r) == multiset(Selected(categories, search, filterCategory))
    ensures forall c :: c in r <==>
              c in categories && MatchesSearch(c, search) && (filterCategory == "All" || c.name == filterCategory)
  {
    SortMultiset(Selected(categories, search, filterCategory), NameOrder(sortOrder));
    var r := Sort(Selected(categories, search, filterCategory), NameOrder(sortOrder));
    assert forall c :: c in r <==> c in multiset(r);
    r
  }

  /** An empty search matches every category. */
  lemma EmptySearchMatchesAll(cat: Category)
    ensures MatchesSearch(cat, "")
  {
    ContainsEmpty(Lower(cat.name));
  }

  /** The view is sorted by name: ascending for "asc", descending otherwise. */
  lemma FilteredCategoriesSorted(categories: seq<Category>, search: string, filterCategory: string, sortOrder: string)
    ensures var r := FilteredCategories(categories, search, filterCategory, sortOrder);
            (sortOrder == "asc" ==> forall i, j :: 0 <= i < j < |r| ==> StrLe(r[i].name, r[j].name)) &&
            (sortOrder != "asc" ==> forall i, j :: 0 <= i < j < |r| ==> StrLe(r[j].name, r[i].name))
  {
    SortSorted(Selected(categories, search, filterCategory), NameOrder(sortOrder));
  }

  /** `categoryOptions`: "All" and then every category name, in order. */
  function CategoryOptions(categories: seq<Category>): (r: seq<string>)
    ensures |r| == |categories| + 1 && r[0] == "All"
    ensures forall i :: 0 <= i < |categories| ==> r[i + 1] == categories[i].name
  {
    ["All"] + seq(|categories|, i requires 0 <= i < |categories| => categories[i].name)
  }

  /** An added category adds its name as the last option. */
  lemma OptionsOfAppended(categories: seq<Category>, cat: Category)
    ensures CategoryOptions(categories + [cat]) == CategoryOptions(categories) + [cat.name]
  {
  }

  /**
   * The `map` of `handleAddSubcategory`: sub is appended to the subcategories
   * of every category named selected; the other categories are kept.
   */
  function AddSubcategory(categories: seq<Category>, selected: string, sub: string): (r: seq<Category>)
    ensures |r| == |categories|
    ensures forall i :: 0 <= i < |r| && categories[i].name != selected ==> r[i] == categories[i]
    ensures forall i :: 0 <= i < |r| && categories[i].name == selected ==>
              r[i].id == categories[i].id && r[i].name == selected &&
              r[i].subcategories == categories[i].subcategories + [sub]
  {
    seq(|categories|, i requires 0 <= i < |categories| =>
      var cat := categories[i];
      if cat.name == selected then cat.(subcategories := cat.subcategories + [sub]) else cat)
  }

  /** Adding a subcategory changes no name, so the options stay the same. */
  lemma AddSubcategoryKeepsOptions(categories: seq<Category>, selected: string, sub: string)
    ensures CategoryOptions(AddSubcategory(categories, selected, sub)) == CategoryOptions(categories)
  {
  }

  /** The state of the categories screen. */
  class CategoriesScreen {
    var categories: seq<Category>
    var search: string
    var filterCategory: string
    var sortOrder: string
    var newCategory: string
    var newSubcategory: string
    var selectedCategory: string

    constructor (initial: seq<Category>)
      ensures categories == initial && search == "" && filterCategory == "All" && sortOrder == "asc"
      ensures newCategory == "" && newSubcategory == "" && selectedCategory == ""
    {
      categories, search, filterCategory, sortOrder := initial, "", "All", "asc";
      newCategory, newSubcategory, selectedCategory := "", "", "";
    }

    /** `handleAddCategory`: append the trimmed name with a fresh id and no subcategories. */
    method HandleAddCategory(freshId: int)
      modifies this
      ensures IsBlank(old(newCategory)) ==> categories == old(categories) && newCategory == old(newCategory)
      ensures !IsBlank(old(newCategory)) ==>
                categories == old(categories) + [Category(freshId, Trim(old(newCategory)), [])] &&
                newCategory == ""
      ensures newSubcategory == old(newSubcategory) && selectedCategory == old(selectedCategory)
      ensures search == old(search) && filterCategory == old(filterCategory) && sortOrder == old(sortOrder)
    {
      if IsBlank(newCategory) {
        return;
      }
      categories := categories + [Category(freshId, Trim(newCategory), [])];
      newCategory := "";
    }

    /** `handleAddSubcategory`: needs a selected category and a non-blank input. */
    method HandleAddSubcategory()
      modifies this
      ensures old(selectedCategory) == "" || IsBlank(old(newSubcategory)) ==>
                categories == old(categories) && newSubcategory == old(newSubcategory)
      ensures old(selectedCategory) != "" && !IsBlank(old(newSubcategory)) ==>
                categories == AddSubcategory(old(categories), old(selectedCategory), Trim(old(newSubcategory))) &&
                newSubcategory == ""
      ensures newCategory == old(newCategory) && selectedCategory == old(selectedCategory)
      ensures search == old(search) && filterCategory == old(filterCategory) && sortOrder == old(sortOrder)
    {
      if selectedCategory == "" || IsBlank(newSubcategory) {
        return;
      }
      categories := AddSubcategory(categories, selectedCategory, Trim(newSubcategory));
      newSubcategory := "";
    }

    /** The sort button. */
    method ToggleSortOrder()
      modifies this
      ensures sortOrder == FlipDirection(old(sortOrder))
      ensures categories == old(categories) && search == old(search) && filterCategory == old(filterCategory)
      ensures newCategory == old(newCategory) && newSubcategory == old(newSubcategory)
      ensures selectedCategory == old(selectedCategory)
    {
      sortOrder := FlipDirection(sortOrder);
    }
  }
}
