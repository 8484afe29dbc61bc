/**
 * components/add-product/CategorySelector.jsx: the category and subcategory
 * pickers of the product form. The fetched list is the component's state;
 * `category`, `subcategory` and `onChange` are the parent's props.
 */
module CategorySelector {
  import opened Wrappers
  import opened Seqs
  import opened Fetch

  datatype Category = Category(id: string, name: string, subcategories: seq<string>)

  /**
   * The shapes of a parsed categories body: a bare array, an object whose
   * `data` is an array (`Some`) or is not (`None`), and any other value.
   */
  datatype Body = ArrayBody(items: seq<Category>) | ObjectBody(data: Option<seq<Category>>) | OtherBody

  /** The list `fetchCategories` stores for an outcome. */
  function CategoriesFrom(outcome: Outcome<Body>): (r: seq<Category>)
    ensures outcome.Ok() && outcome.body.ArrayBody? ==> r == outcome.body.items
    ensures outcome.Ok() && outcome.body.ObjectBody? && outcome.body.data.Some? ==> r == outcome.body.data.value
    ensures r != [] ==> outcome.Ok() && (outcome.body.ArrayBody? || (outcome.body.ObjectBody? && outcome.body.data.Some?))
  {
    match outcome
    case Threw => []
    case Responded(ok, body) =>
      if !ok then []
      else match body
        case ArrayBody(items) => items
        case ObjectBody(Some(items)) => items
        case ObjectBody(None) => []
        case OtherBody => []
  }

  function IdIs(category: string): Category -> bool {
    (c: Category) => c.id == category
  }

  function NameIs(category: string): Category -> bool {
    (c: Category) => c.name == category
  }

  /** `selectedCategoryObj`: the first category with that id, else the first with that name. */
  function SelectedCategory(categories: seq<Category>, category: string): (r: Option<Category>)
    ensures (exists i :: 0 <= i < |categories| && categories[i].id == category) ==>
              exists i :: IsFirstMatch(categories, IdIs(category), i) && r == Some(categories[i])
    ensures (forall i :: 0 <= i < |categories| ==> categories[i].id != category) ==>
              ((exists i :: 0 <= i < |categories| && categories[i].name == category) ==>
                 exists i :: IsFirstMatch(categories, NameIs(category), i) && r == Some(categories[i]))
    ensures r.None? <==> forall i :: 0 <= i < |categories| ==> categories[i].id != category && categories[i].name != category
  {
    match FindIndex(categories, IdIs(category))
    case Some(i) => Some(categories[i])
    case None =>
      match FindIndex(categories, NameIs(category))
      case Some(i) => Some(categories[i])
      case None => None
  }

  /** A category matched by id wins over one that only matches by name, whatever their order. */
  lemma IdMatchWins(categories: seq<Category>, category: string, j: int)
    requires 0 <= j < |categories| && categories[j].id == category
    ensures SelectedCategory(categories, category).Some?
    ensures SelectedCategory(categories, category).value.id == category
  {
  }

  /** The value of the category `<select>`: the selected category's id, or "". */
  function SelectValue(categories: seq<Category>, category: string): (r: string)
    ensures SelectedCategory(categories, category).None? ==> r == ""
    ensures SelectedCategory(categories, category).Some? ==> r == SelectedCategory(categories, category).value.id
  {
    match SelectedCategory(categories, category)
    case Some(c) => c.id
    case None => ""
  }

  /**
   * `handleCategoryChange(categoryId)`: the `onChange(name, sub)` call, made
   * only when a handler is given: the chosen category's name, or "" for an
   * unknown id, and always an empty subcategory.
   */
  function CategoryChange(categories: seq<Category>, categoryId: string, hasHandler: bool): (call: Option<(string, string)>)
    ensures call.Some? <==> hasHandler
    ensures call.Some? ==> call.value.1 == ""
    ensures call.Some? && (forall i :: 0 <= i < |categories| ==> categories[i].id != categoryId) ==> call.value.0 == ""
    ensures call.Some? && (exists i :: 0 <= i < |categories| && categories[i].id == categoryId) ==>
              exists i :: IsFirstMatch(categories, IdIs(categoryId), i) && call.value.0 == categories[i].name
  {
    var sel := Find(categories, IdIs(categoryId));
    var catName := if sel.Some? then sel.value.name else "";
    assert (exists i :: 0 <= i < |categories| && categories[i].id == categoryId) ==> sel.Some? by {
      if exists i :: 0 <= i < |categories| && categories[i].id == categoryId {
        var i :| 0 <= i < |categories| && categories[i].id == categoryId;
        assert categories[i] in categories;
      }
    }
    if hasHandler then Some((catName, "")) else None
  }

  /**
   * `handleSubcategoryChange(sub)`: the `onChange` call, made only when a
   * handler is given: the selected category's name, or the raw `category`
   * prop when none is selected, with the new subcategory.
   */
  function SubcategoryChange(categories: seq<Category>, category: string, sub: string, hasHandler: bool): (call: Option<(string, string)>)
    ensures call.Some? <==> hasHandler
    ensures call.Some? ==> call.value.1 == sub
    ensures call.Some? && SelectedCategory(categories, category).Some? ==>
              call.value.0 == SelectedCategory(categories, category).value.name
    ensures call.Some? && SelectedCategory(categories, category).None? ==> call.value.0 == category
  {
    var sel := SelectedCategory(categories, category);
    if hasHandler then Some((if sel.Some? then sel.value.name else category, sub)) else None
  }

  /** A category picked from the list and then a subcategory report that category's name. */
  lemma PickThenSub(categories: seq<Category>, i: int, sub: string)
    requires 0 <= i < |categories|
    requires forall j :: 0 <= j < |categories| && j != i ==> categories[j].id != categories[i].id
    requires forall j :: 0 <= j < |categories| ==> categories[j].id != categories[i].name
    ensures CategoryChange(categories, categories[i].id, true) == Some((categories[i].name, ""))
    ensures SubcategoryChange(categories, categories[i].name, sub, true) == Some((categories[i].name, sub))
  {
  }

  /** The fetched-list state of the component. */
  class CategorySelectorState {
    var categories: seq<Category>
    var loading: bool

    constructor ()
      ensures categories == [] && loading
    {
      categories, loading := [], true;
    }

    /** `fetchCategories`: the list of `CategoriesFrom`; loading ends in every case. */
    method FetchCategories(outcome: Outcome<Body>)
      modifies this
      ensures categories == CategoriesFrom(outcome)
      ensures !loading
    {
      loading := true;
      categories := CategoriesFrom(outcome);
      loading := false;
    }
  }
}
