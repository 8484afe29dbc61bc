/**
 * The selection toggle the add-product selectors share: a selected item is
 * removed (every occurrence, `list.filter(x => x !== item)`), an unselected one
 * is appended (`[...list, item]`). TagSelector.jsx, tags.jsx and
 * sizeSelector.jsx each write this operation out; it is defined once here and
 * the three components are modelled on it.
 */
module Selection {
  import opened Seqs

  /** The predicate `x => x !== item` of the removal branch. */
  function Other(item: string): string -> bool {
    x => x != item
  }

  /** The list after toggling item. */
  function Toggle(selected: seq<string>, item: string): (r: seq<string>)
    ensures (item in r) == (item !in selected)
    ensures forall x :: x != item ==> (x in r <==> x in selected)
    ensures item !in selected ==> r == selected + [item]
    ensures item in selected ==> IsSubsequence(r, selected)
    ensures item in selected ==>
              forall x :: multiset(r)[x] == if x == item then 0 else multiset(selected)[x]
  {
    if item in selected then
      FilterSubsequence(selected, Other(item));
      FilterMultiset(selected, Other(item));
      Filter(selected, Other(item))
    else
      selected + [item]
  }

  /** Toggling an absent item twice gives back the original list. */
  lemma ToggleTwice(selected: seq<string>, item: string)
    requires item !in selected
    ensures Toggle(Toggle(selected, item), item) == selected
  {
    assert item in selected + [item];
    FilterAppend(selected, [item], Other(item));
    FilterAll(selected, Other(item));
  }

  /** Toggling keeps a duplicate-free list duplicate-free. */
  lemma ToggleDistinct(selected: seq<string>, item: string)
    requires Distinct(selected)
    ensures Distinct(Toggle(selected, item))
  {
    if item in selected {
      FilterDistinct(selected, Other(item));
    }
  }

  /** Toggling an item of a pool keeps a selection drawn from that pool inside it. */
  lemma ToggleWithin(selected: seq<string>, item: string, pool: set<string>)
    requires forall x :: x in selected ==> x in pool
    requires item in pool
    ensures forall x :: x in Toggle(selected, item) ==> x in pool
  {
  }
}

/** components/add-product/TagSelector.jsx: tags toggled by the `name` of a fetched tag record. */
module TagSelector {
  import Selection

  /** A record of the tags endpoint. */
  datatype Tag = Tag(id: string, name: string)

  /** `toggleTag(tag)`: the list handed to `onChange`. */
  function ToggleTag(selectedTags: seq<string>, tag: Tag): (updated: seq<string>)
    ensures (tag.name in updated) == (tag.name !in selectedTags)
    ensures forall x :: x != tag.name ==> (x in updated <==> x in selectedTags)
    ensures tag.name !in selectedTags ==> updated == selectedTags + [tag.name]
    ensures tag.name in selectedTags ==> forall x :: x in updated ==> x != tag.name
  {
    Selection.Toggle(selectedTags, tag.name)
  }

  /** Toggling the same absent tag twice restores the selection. */
  lemma ToggleTagTwice(selectedTags: seq<string>, tag: Tag)
    requires tag.name !in selectedTags
    ensures ToggleTag(ToggleTag(selectedTags, tag), tag) == selectedTags
  {
    Selection.ToggleTwice(selectedTags, tag.name);
  }
}

/** components/add-product/tags.jsx: the buttons pass `tag.name`, so the toggle works on names. */
module AddProductTags {
  import opened Seqs
  import Selection

  datatype Tag = Tag(id: string, name: string)

  /** The names of the fetched tags, one per button. */
  function Names(tags: seq<Tag>): (names: seq<string>)
    ensures |names| == |tags|
    ensures forall i :: 0 <= i < |tags| ==> names[i] == tags[i].name
  {
    seq(|tags|, i requires 0 <= i < |tags| => tags[i].name)
  }

  /** `toggleTag(name)`: the list always handed to `onChange`; the shared `Selection.Toggle`, keyed by name. */
  function ToggleTag(selectedTags: seq<string>, name: string): (updated: seq<string>)
    ensures (name in updated) == (name !in selectedTags)
    ensures forall x :: x != name ==> (x in updated <==> x in selectedTags)
    ensures name !in selectedTags ==> updated == selectedTags + [name]
    ensures name in selectedTags ==> forall x :: x in updated ==> x != name
  {
    Selection.Toggle(selectedTags, name)
  }

  /** A double toggle of an absent name is the identity. */
  lemma ToggleTagTwice(selectedTags: seq<string>, name: string)
    requires name !in selectedTags
    ensures ToggleTag(ToggleTag(selectedTags, name), name) == selectedTags
  {
    Selection.ToggleTwice(selectedTags, name);
  }

  /** Clicking the button of a fetched tag keeps the selection within the fetched names. */
  lemma ToggleKeepsFetchedNames(tags: seq<Tag>, selectedTags: seq<string>, clicked: Tag)
    requires clicked in tags
    requires forall x :: x in selectedTags ==> x in Names(tags)
    ensures forall x :: x in ToggleTag(selectedTags, clicked.name) ==> x in Names(tags)
  {
    var k :| 0 <= k < |tags| && tags[k] == clicked;
    assert Names(tags)[k] == clicked.name;
    Selection.ToggleWithin(selectedTags, clicked.name, set x | x in Names(tags));
  }
}

/** components/add-product/sizeSelector.jsx: the fixed list of UK shoe sizes and their toggle. */
module SizeSelector {
  import opened Seqs
  import Selection

  /** The offered sizes, in display order. */
  const Sizes: seq<string> := ["UK 3", "UK 4", "UK 5", "UK 6", "UK 7", "UK 8", "UK 9"]

  /** A valid selection: distinct sizes, each one of the offered sizes. */
  ghost predicate ValidSelection(selectedSizes: seq<string>) {
    Distinct(selectedSizes) && forall s :: s in selectedSizes ==> s in Sizes
  }

  /** The seven offered sizes are "UK n" for n from 3 to 9, without repeats. */
  lemma SizesAreUkThreeToNine()
    ensures |Sizes| == 7
    ensures forall i :: 0 <= i < 7 ==> Sizes[i] == "UK " + [('3' as int + i) as char]
    ensures Distinct(Sizes)
  {
  }

  /** `toggleSize(size)`: the list handed to `setSelectedSizes`; the shared `Selection.Toggle`, keyed by size. */
  function ToggleSize(selectedSizes: seq<string>, size: string): (updated: seq<string>)
    ensures (size in updated) == (size !in selectedSizes)
    ensures forall x :: x != size ==> (x in updated <==> x in selectedSizes)
    ensures size !in selectedSizes ==> updated == selectedSizes + [size]
    ensures size in selectedSizes ==> forall x :: x in updated ==> x != size
  {
    Selection.Toggle(selectedSizes, size)
  }

  /** Toggling an offered size keeps a valid selection valid. */
  lemma ToggleSizeValid(selectedSizes: seq<string>, size: string)
    requires ValidSelection(selectedSizes) && size in Sizes
    ensures ValidSelection(ToggleSize(selectedSizes, size))
  {
    Selection.ToggleDistinct(selectedSizes, size);
    if size !in selectedSizes {
      var r := selectedSizes + [size];
      forall i, j | 0 <= i < j < |r| ensures r[i] != r[j] {
        if j == |r| - 1 {
          assert r[i] in selectedSizes;
        }
      }
    }
  }

  /** Toggling a size twice from an unselected state restores the selection. */
  lemma ToggleSizeTwice(selectedSizes: seq<string>, size: string)
    requires size !in selectedSizes
    ensures ToggleSize(ToggleSize(selectedSizes, size), size) == selectedSizes
  {
    Selection.ToggleTwice(selectedSizes, size);
  }
}
