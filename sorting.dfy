/**
 * `Array.prototype.sort` with a comparator. The JavaScript sort is stable, so
 * its result is determined by the comparator: a comparator `cmp` is modelled by
 * the relation `le(a, b) == (cmp(a, b) <= 0)` and the sort by a stable
 * insertion sort over it. `SortArray` sorts an array in place and is proved to
 * produce exactly `Sort` of the old contents; the order properties are lemmas
 * about `Sort`.
 */
module Sorting {
  import opened Seqs

  /** le relates any two values and is transitive: what a consistent comparator gives. */
  ghost predicate TotalPreorder<T(!new)>(le: (T, T) -> bool) {
    (forall a, b :: le(a, b) || le(b, a)) &&
    (forall a, b, c :: le(a, b) && le(b, c) ==> le(a, c))
  }

  ghost predicate SortedBy<T>(s: seq<T>, le: (T, T) -> bool) {
    forall i, j :: 0 <= i < j < |s| ==> le(s[i], s[j])
  }

  /** s with x placed after its last element e that has le(e, x). */
  function Insert<T>(s: seq<T>, x: T, le: (T, T) -> bool): (r: seq<T>)
    ensures |r| == |s| + 1
  {
    if s == [] then [x]
    else if le(s[|s| - 1], x) then s + [x]
    else Insert(s[..|s| - 1], x, le) + [s[|s| - 1]]
  }

  /** The elements of a non-empty list are those of its front and its last element. */
  lemma MultisetSnoc<T>(s: seq<T>)
    requires s != []
    ensures multiset(s) == multiset(s[..|s| - 1]) + multiset{s[|s| - 1]}
  {
    assert s == s[..|s| - 1] + [s[|s| - 1]];
  }

  /** Inserting adds exactly x to the elements. */
  lemma {:induction false} InsertMultiset<T>(s: seq<T>, x: T, le: (T, T) -> bool)
    ensures multiset(Insert(s, x, le)) == multiset(s) + multiset{x}
    decreases |s|
  {
    if s != [] && !le(s[|s| - 1], x) {
      var front, last := s[..|s| - 1], s[|s| - 1];
      assert Insert(s, x, le) == Insert(front, x, le) + [last];
      InsertMultiset(front, x, le);
      MultisetSnoc(s);
    }
  }

  /** `s.sort(cmp)`: a stable sort by le. */
  function Sort<T>(s: seq<T>, le: (T, T) -> bool): (r: seq<T>)
    ensures |r| == |s|
  {
    if s == [] then []
    else Insert(Sort(s[..|s| - 1], le), s[|s| - 1], le)
  }

  /** The sort is a permutation of its input. */
  lemma {:induction false} SortMultiset<T>(s: seq<T>, le: (T, T) -> bool)
    ensures multiset(Sort(s, le)) == multiset(s)
    decreases |s|
  {
    if s != [] {
      var front, last := s[..|s| - 1], s[|s| - 1];
      var sf := Sort(front, le);
      assert Sort(s, le) == Insert(sf, last, le);
      SortMultiset(front, le);
      InsertMultiset(sf, last, le);
      MultisetSnoc(s);
    }
  }

  /** Inserting x below a bound y of s keeps every element below y. */
  lemma {:induction false} InsertBounded<T>(s: seq<T>, x: T, le: (T, T) -> bool, y: T)
    requires forall i :: 0 <= i < |s| ==> le(s[i], y)
    requires le(x, y)
    ensures forall i :: 0 <= i < |s| + 1 ==> le(Insert(s, x, le)[i], y)
    decreases |s|
  {
    if s != [] && !le(s[|s| - 1], x) {
      var front := s[..|s| - 1];
      InsertBounded(front, x, le, y);
      var ins := Insert(front, x, le);
      assert Insert(s, x, le) == ins + [s[|s| - 1]];
    }
  }

  lemma {:induction false} InsertSorted<T(!new)>(s: seq<T>, x: T, le: (T, T) -> bool)
    requires TotalPreorder(le) && SortedBy(s, le)
    ensures SortedBy(Insert(s, x, le), le)
    decreases |s|
  {
    if s == [] {
    } else if le(s[|s| - 1], x) {
      var r := s + [x];
      forall i, j | 0 <= i < j < |r| ensures le(r[i], r[j]) {
        if j == |s| && i < |s| - 1 {
          assert le(s[i], s[|s| - 1]);
        }
      }
    } else {
      var front, last := s[..|s| - 1], s[|s| - 1];
      assert SortedBy(front, le);
      InsertSorted(front, x, le);
      assert forall i :: 0 <= i < |front| ==> le(front[i], last);
      InsertBounded(front, x, le, last);
      var ins := Insert(front, x, le);
      var r := ins + [last];
      forall i, j | 0 <= i < j < |r| ensures le(r[i], r[j]) {
        if j < |ins| {
          assert r[i] == ins[i] && r[j] == ins[j];
        }
      }
    }
  }

  /** The sort's output is ordered by le. */
  lemma {:induction false} SortSorted<T(!new)>(s: seq<T>, le: (T, T) -> bool)
    requires TotalPreorder(le)
    ensures SortedBy(Sort(s, le), le)
    decreases |s|
  {
    if s != [] {
      SortSorted(s[..|s| - 1], le);
      InsertSorted(Sort(s[..|s| - 1], le), s[|s| - 1], le);
    }
  }

  /** Sorting a list already ordered by le returns it unchanged. */
  lemma {:induction false} SortOfSorted<T>(s: seq<T>, le: (T, T) -> bool)
    requires SortedBy(s, le)
    ensures Sort(s, le) == s
    decreases |s|
  {
    if s != [] {
      var front := s[..|s| - 1];
      assert SortedBy(front, le);
      SortOfSorted(front, le);
      assert s == front + [s[|s| - 1]];
      if |front| > 0 {
        assert le(front[|front| - 1], s[|s| - 1]);
      }
    }
  }

  /** Sorting twice by a total preorder is sorting once. */
  lemma SortIdempotent<T(!new)>(s: seq<T>, le: (T, T) -> bool)
    requires TotalPreorder(le)
    ensures Sort(Sort(s, le), le) == Sort(s, le)
  {
    SortSorted(s, le);
    SortOfSorted(Sort(s, le), le);
  }

  /**
   * Inserting keeps the relative order of the elements selected by tie, when
   * tie only selects elements that le relates to each other.
   */
  lemma {:induction false} InsertStable<T(!new)>(s: seq<T>, x: T, le: (T, T) -> bool, tie: T -> bool)
    requires forall a, b :: tie(a) && tie(b) ==> le(a, b)
    ensures Filter(Insert(s, x, le), tie) == Filter(s, tie) + Filter([x], tie)
    decreases |s|
  {
    if s == [] {
    } else if le(s[|s| - 1], x) {
      FilterAppend(s, [x], tie);
    } else {
      var front, last := s[..|s| - 1], s[|s| - 1];
      var ins := Insert(front, x, le);
      assert Insert(s, x, le) == ins + [last];
      assert s == front + [last];
      InsertStable(front, x, le, tie);
      FilterAppend(ins, [last], tie);
      FilterAppend(front, [last], tie);
      var fx, fl := Filter([x], tie), Filter([last], tie);
      AppendAssoc(Filter(front, tie), fx, fl);
      AppendAssoc(Filter(front, tie), fl, fx);
      assert !(tie(x) && tie(last)) by {
        assert tie(x) && tie(last) ==> le(last, x);
      }
      assert fx + fl == fl + fx;
    }
  }

  /**
   * The sort is stable: the elements of any class of mutually tied values
   * appear in the output in the order they had in the input.
   */
  lemma {:induction false} SortStable<T(!new)>(s: seq<T>, le: (T, T) -> bool, tie: T -> bool)
    requires forall a, b :: tie(a) && tie(b) ==> le(a, b)
    ensures Filter(Sort(s, le), tie) == Filter(s, tie)
    decreases |s|
  {
    if s != [] {
      var front, last := s[..|s| - 1], s[|s| - 1];
      SortStable(front, le, tie);
      InsertStable(Sort(front, le), last, le, tie);
      FilterAppend(front, [last], tie);
      assert s == front + [last];
    }
  }

  /**
   * x goes right after p[..j] when the element before j (if any) is le x and
   * no element from j on is.
   */
  lemma {:induction false} InsertAt<T>(p: seq<T>, x: T, le: (T, T) -> bool, j: int)
    requires 0 <= j <= |p| && (j == 0 || le(p[j - 1], x))
    requires forall k :: j <= k < |p| ==> !le(p[k], x)
    ensures Insert(p, x, le) == p[..j] + [x] + p[j..]
    decreases |p|
  {
    if j < |p| {
      var front, last := p[..|p| - 1], p[|p| - 1];
      assert !le(last, x);
      assert front[..j] == p[..j];
      InsertAt(front, x, le, j);
      assert p[j..] == front[j..] + [last];
    } else {
      assert p[..j] == p;
    }
  }

  /** Inserts a[i] into the prefix a[..i], shifting greater elements one place right. */
  method InsertInPlace<T>(a: array<T>, i: nat, le: (T, T) -> bool)
    requires i < a.Length
    modifies a
    ensures a[..i + 1] == Insert(old(a[..i]), old(a[i]), le)
    ensures forall k :: i < k < a.Length ==> a[k] == old(a[k])
  {
    ghost var p := a[..i];
    var x := a[i];
    var j := i;
    while j > 0 && !le(a[j - 1], x)
      invariant 0 <= j <= i
      invariant forall k :: 0 <= k < j ==> a[k] == p[k]
      invariant forall k :: j < k <= i ==> a[k] == p[k - 1]
      invariant forall k :: j <= k < i ==> !le(p[k], x)
      invariant forall k :: i < k < a.Length ==> a[k] == old(a[k])
    {
      a[j] := a[j - 1];
      j := j - 1;
    }
    a[j] := x;
    InsertAt(p, x, le, j);
    ghost var r := p[..j] + [x] + p[j..];
    assert forall k :: 0 <= k <= i ==> a[k] == r[k];
    assert a[..i + 1] == r;
  }

  /** Sorting one more element of s is inserting it into the sorted prefix. */
  lemma SortPrefix<T>(s: seq<T>, i: nat, le: (T, T) -> bool)
    requires i < |s|
    ensures Sort(s[..i + 1], le) == Insert(Sort(s[..i], le), s[i], le)
  {
    assert s[..i + 1][..i] == s[..i];
  }

  /** Sorting in place, as `a.sort(cmp)` does on a JavaScript array. */
  method SortArray<T>(a: array<T>, le: (T, T) -> bool)
    modifies a
    ensures a[..] == Sort(old(a[..]), le)
  {
    ghost var s0 := a[..];
    var i := 0;
    while i < a.Length
      invariant 0 <= i <= a.Length
      invariant a[..i] == Sort(s0[..i], le)
      invariant forall k :: i <= k < a.Length ==> a[k] == s0[k]
    {
      SortPrefix(s0, i, le);
      InsertInPlace(a, i, le);
      i := i + 1;
    }
    assert a[..] == a[..a.Length] && s0 == s0[..a.Length];
  }

  /** A sort-direction button: "asc" becomes "desc" and anything else "asc". */
  function FlipDirection(sortOrder: string): (r: string)
    ensures r == "asc" <==> sortOrder != "asc"
    ensures r == "asc" || r == "desc"
  {
    if sortOrder == "asc" then "desc" else "asc"
  }

  /** Two presses of the button return to the direction shown. */
  lemma FlipDirectionTwice(sortOrder: string)
    requires sortOrder == "asc" || sortOrder == "desc"
    ensures FlipDirection(FlipDirection(sortOrder)) == sortOrder
  {
  }
}
