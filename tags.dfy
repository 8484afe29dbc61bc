/**
 * app/tags/page.jsx: product tags searched and filtered by name, sorted by
 * name, added through a dialog that refuses blank and duplicate names, and
 * deleted after a confirmation.
 */
module TagsPage {
  import opened Wrappers
  import opened Text
  import opened Seqs
  import opened Sorting

  datatype Tag = Tag(id: int, name: string)

  predicate MatchesSearch(tag: Tag, search: string) {
    Contains(Lower(tag.name), Lower(search))
  }

  function SearchFilter(search: string): Tag -> bool {
    (tag: Tag) => MatchesSearch(tag, search)
  }

  function NameFilter(filterTag: string): Tag -> bool {
    (tag: Tag) => tag.name == filterTag
  }

  /** `a.name.localeCompare(b.name) <= 0`. */
  predicate NameAsc(a: Tag, b: Tag) {
    StrLe(a.name, b.name)
  }

  /** `b.name.localeCompare(a.name) <= 0`. */
  predicate NameDesc(a: Tag, b: Tag) {
    StrLe(b.name, a.name)
  }

  /**
   * The comparator: ascending for "asc", descending for any other order. The
   * source page repeats the comparator of the categories page, over tags.
   */
  function NameOrder(sortOrder: string): (le: (Tag, Tag) -> bool)
    ensures TotalPreorder(le)
  {
    StrLeOrder();
    if sortOrder == "asc" then NameAsc else NameDesc
  }

  /** The search and exact-name steps of the memo. */
  function Selected(tags: seq<Tag>, search: string, filterTag: string): (r: seq<Tag>)
    ensures forall t :: t in r <==> t in tags && MatchesSearch(t, search) && (filterTag == "All" || t.name == filterTag)
    ensures IsSubsequence(r, tags)
    ensures forall t :: multiset(r)[t] ==
              if MatchesSearch(t, search) && (filterTag == "All" || t.name == filterTag)
              then multiset(tags)[t] else 0
  {
    var searched := Filter(tags, SearchFilter(search));
    FilterSubsequence(tags, SearchFilter(search));
    FilterMultiset(tags, SearchFilter(search));
    FilterSubsequence(searched, NameFilter(filterTag));
    FilterMultiset(searched, NameFilter(filterTag));
    SubsequenceReflexive(searched);
    var r := if filterTag != "All" then Filter(searched, NameFilter(filterTag)) else searched;
    SubsequenceTransitive(r, searched, tags);
    r
  }

  /** The `filteredTags` memo. */
  function FilteredTags(tags: seq<Tag>, search: string, filterTag: string, sortOrder: string): (r: seq<Tag>)
    ensures multiset(r) == multiset(Selected(tags, search, filterTag))
    ensures forall t :: t in r <==> t in tags && MatchesSearch(t, search) && (filterTag == "All" || t.name == filterTag)
  {
    SortMultiset(Selected(tags, search, filterTag), NameOrder(sortOrder));
    var r := Sort(Selected(tags, search, filterTag), NameOrder(sortOrder));
    assert forall t :: t in r <==> t in multiset(r);
    r
  }

  /** The view is sorted by name: ascending for "asc", descending otherwise. */
  lemma FilteredTagsSorted(tags: seq<Tag>, search: string, filterTag: string, sortOrder: string)
    ensures var r := FilteredTags(tags, search, filterTag, sortOrder);
            (sortOrder == "asc" ==> forall i, j :: 0 <= i < j < |r| ==> StrLe(r[i].name, r[j].name)) &&
            (sortOrder != "asc" ==> forall i, j :: 0 <= i < j < |r| ==> StrLe(r[j].name, r[i].name))
  {
    SortSorted(Selected(tags, search, filterTag), NameOrder(sortOrder));
  }

  /** `tagOptions`: "All" and then every tag name, in order, as `categoryOptions` builds for categories. */
  function TagOptions(tags: seq<Tag>): (r: seq<string>)
    ensures |r| == |tags| + 1 && r[0] == "All"
    ensures forall i :: 0 <= i < |tags| ==> r[i + 1] == tags[i].name
  {
    ["All"] + seq(|tags|, i requires 0 <= i < |tags| => tags[i].name)
  }

  /** Some existing tag has the name of the trimmed input, compared lowered. */
  predicate NameTaken(tags: seq<Tag>, newTag: string) {
    exists i :: 0 <= i < |tags| && Lower(tags[i].name) == Lower(Trim(newTag))
  }

  /** The validation of `handleAddTag`, in its order; None when the tag may be added. */
  function AddTagError(tags: seq<Tag>, newTag: string): (r: Option<string>)
    ensures IsBlank(newTag) ==> r == Some("Tag name cannot be empty")
    ensures !IsBlank(newTag) && NameTaken(tags, newTag) ==> r == Some("Tag already exists")
    ensures r == None <==> !IsBlank(newTag) && !NameTaken(tags, newTag)
  {
    if IsBlank(newTag) then Some("Tag name cannot be empty")
    else if NameTaken(tags, newTag) then Some("Tag already exists")
    else None
  }

  /** No two tags have names equal up to case. */
  ghost predicate NamesUnique(tags: seq<Tag>) {
    forall i, j :: 0 <= i < j < |tags| ==> Lower(tags[i].name) != Lower(tags[j].name)
  }

  /** A tag accepted by the validation keeps the names unique up to case. */
  lemma AddKeepsNamesUnique(tags: seq<Tag>, newTag: string, freshId: int)
    requires NamesUnique(tags) && AddTagError(tags, newTag) == None
    ensures NamesUnique(tags + [Tag(freshId, Trim(newTag))])
  {
    var r := tags + [Tag(freshId, Trim(newTag))];
    forall i, j | 0 <= i < j < |r| ensures Lower(r[i].name) != Lower(r[j].name) {
      if j == |tags| {
        assert r[i] == tags[i];
      } else {
        assert r[i] == tags[i] && r[j] == tags[j];
      }
    }
  }

  /** The delete: the tags whose id differs, in their order. */
  function RemoveById(tags: seq<Tag>, id: int): (r: seq<Tag>)
    ensures forall t :: t in r <==> t in tags && t.id != id
    ensures IsSubsequence(r, tags)
    ensures forall t :: multiset(r)[t] == if t.id != id then multiset(tags)[t] else 0
  {
    FilterSubsequence(tags, (t: Tag) => t.id != id);
    FilterMultiset(tags, (t: Tag) => t.id != id);
    Filter(tags, (t: Tag) => t.id != id)
  }

  /** The state of the tags screen. */
  class TagsScreen {
    var tags: seq<Tag>
    var search: string
    var filterTag: string
    var sortOrder: string
    var showDialog: bool
    var newTag: string
    var error: string

    constructor (initial: seq<Tag>)
      ensures tags == initial && search == "" && filterTag == "All" && sortOrder == "asc"
      ensures !showDialog && newTag == "" && error == ""
    {
      tags, search, filterTag, sortOrder := initial, "", "All", "asc";
      showDialog, newTag, error := false, "", "";
    }

    /**
     * `handleAddTag`: a refused name only sets the error; an accepted one is
     * appended trimmed with a fresh id, and the dialog closes with its input
     * and error cleared.
     */
    method HandleAddTag(freshId: int)
      modifies this
      ensures AddTagError(old(tags), old(newTag)).Some? ==>
                error == AddTagError(old(tags), old(newTag)).value &&
                tags == old(tags) && newTag == old(newTag) && showDialog == old(showDialog)
      ensures AddTagError(old(tags), old(newTag)).None? ==>
                tags == old(tags) + [Tag(freshId, Trim(old(newTag)))] &&
                newTag == "" && !showDialog && error == ""
      ensures search == old(search) && filterTag == old(filterTag) && sortOrder == old(sortOrder)
    {
      var refusal := AddTagError(tags, newTag);
      if refusal.Some? {
        error := refusal.value;
        return;
      }
      tags := tags + [Tag(freshId, Trim(newTag))];
      newTag := "";
      showDialog := false;
      error := "";
    }

    /** `handleDeleteTag(id)`: only a confirmed delete changes the tags. */
    method HandleDeleteTag(id: int, confirmed: bool)
      modifies this
      ensures confirmed ==> tags == RemoveById(old(tags), id)
      ensures !confirmed ==> tags == old(tags)
      ensures search == old(search) && filterTag == old(filterTag) && sortOrder == old(sortOrder)
      ensures showDialog == old(showDialog) && newTag == old(newTag) && error == old(error)
    {
      if confirmed {
        tags := RemoveById(tags, id);
      }
    }

    /** The Add Tag button opens the dialog. */
    method OpenDialog()
      modifies this
      ensures showDialog
      ensures tags == old(tags) && newTag == old(newTag) && error == old(error)
      ensures search == old(search) && filterTag == old(filterTag) && sortOrder == old(sortOrder)
    {
      showDialog := true;
    }

    /** The dialog's Cancel button closes it and clears the error; the input stays. */
    method CancelDialog()
      modifies this
      ensures !showDialog && error == ""
      ensures tags == old(tags) && newTag == old(newTag)
      ensures search == old(search) && filterTag == old(filterTag) && sortOrder == old(sortOrder)
    {
      showDialog := false;
      error := "";
    }

    /** The sort button. */
    method ToggleSortOrder()
      modifies this
      ensures sortOrder == FlipDirection(old(sortOrder))
      ensures tags == old(tags) && search == old(search) && filterTag == old(filterTag)
      ensures showDialog == old(showDialog) && newTag == old(newTag) && error == old(error)
    {
      sortOrder := FlipDirection(sortOrder);
    }
  }
}
