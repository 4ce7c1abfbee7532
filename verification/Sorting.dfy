/** What Go's sort.SliceStable guarantees, as a function with its two characteristic properties: the
    first match after sorting is a best element of the input, and the whole result is determined by
    the order of equivalent elements alone. */
module Sorting {
  import opened Text

  // A strict weak order: what SliceStable demands of its less function.
  ghost predicate StrictWeak<T(!new)>(less: (T, T) -> bool) {
    && (forall a :: !less(a, a))
    && (forall a, b, c :: less(a, b) && less(b, c) ==> less(a, c))
    && (forall a, b, c :: less(a, c) ==> less(a, b) || less(b, c))
  }

  // Before its equals: an element inserted later was ahead of them in the input.
  function Insert<T>(x: T, sorted: seq<T>, less: (T, T) -> bool): seq<T> {
    if sorted == [] || !less(sorted[0], x) then [x] + sorted
    else [sorted[0]] + Insert(x, sorted[1..], less)
  }

  function StableSort<T>(s: seq<T>, less: (T, T) -> bool): seq<T> {
    if s == [] then [] else Insert(s[0], StableSort(s[1..], less), less)
  }

  ghost predicate Sorted<T>(s: seq<T>, less: (T, T) -> bool) {
    forall i, j :: 0 <= i < j < |s| ==> !less(s[j], s[i])
  }

  lemma {:induction false} InsertPermutes<T>(x: T, s: seq<T>, less: (T, T) -> bool)
    ensures multiset(Insert(x, s, less)) == multiset(s) + multiset{x}
  {
    if s != [] && less(s[0], x) {
      InsertPermutes(x, s[1..], less);
      assert s == [s[0]] + s[1..];
    }
  }

  lemma {:induction false} InsertSorted<T(!new)>(x: T, s: seq<T>, less: (T, T) -> bool)
    requires StrictWeak(less) && Sorted(s, less)
    ensures Sorted(Insert(x, s, less), less)
  {
    if s != [] && less(s[0], x) {
      InsertSorted(x, s[1..], less);
      InsertPermutes(x, s[1..], less);
      var rest := Insert(x, s[1..], less);
      forall j | 0 <= j < |rest| ensures !less(rest[j], s[0]) {
        assert rest[j] in multiset(rest);
        assert rest[j] == x || rest[j] in s[1..];
      }
    }
  }

  // A sorted permutation of the input.
  lemma {:induction false} StableSortSorts<T(!new)>(s: seq<T>, less: (T, T) -> bool)
    requires StrictWeak(less)
    ensures Sorted(StableSort(s, less), less)
    ensures multiset(StableSort(s, less)) == multiset(s)
  {
    if s != [] {
      StableSortSorts(s[1..], less);
      InsertSorted(s[0], StableSort(s[1..], less), less);
      InsertPermutes(s[0], StableSort(s[1..], less), less);
      assert s == [s[0]] + s[1..];
    }
  }

  // ----- The first match after sorting -----

  function FirstMatch<T>(s: seq<T>, p: T -> bool): Option<T> {
    if s == [] then None else if p(s[0]) then Some(s[0]) else FirstMatch(s[1..], p)
  }

  // Index i holds the match nothing precedes, and is the earliest of its equals.
  ghost predicate IsBest<T>(s: seq<T>, less: (T, T) -> bool, p: T -> bool, i: int) {
    && 0 <= i < |s| && p(s[i])
    && forall j :: 0 <= j < |s| && p(s[j]) ==> !less(s[j], s[i]) && (j < i ==> less(s[i], s[j]))
  }

  lemma {:induction false} FirstMatchInsert<T(!new)>(x: T, s: seq<T>, less: (T, T) -> bool, p: T -> bool)
    requires StrictWeak(less) && Sorted(s, less)
    ensures var m := FirstMatch(s, p);
            FirstMatch(Insert(x, s, less), p)
            == if p(x) && (m.None? || !less(m.value, x)) then Some(x) else m
  {
    if s != [] {
      if less(s[0], x) {
        FirstMatchInsert(x, s[1..], less, p);
      } else {
        assert Insert(x, s, less)[1..] == s;
        FirstMatchIsMember(s, p);
      }
    }
  }

  lemma {:induction false} FirstMatchIsMember<T>(s: seq<T>, p: T -> bool)
    ensures var m := FirstMatch(s, p);
            if m.Some? then p(m.value) && exists i :: 0 <= i < |s| && s[i] == m.value
            else forall i :: 0 <= i < |s| ==> !p(s[i])
  {
    if s != [] {
      FirstMatchIsMember(s[1..], p);
      assert s == [s[0]] + s[1..];
      if !p(s[0]) && FirstMatch(s, p).Some? {
        var i :| 0 <= i < |s[1..]| && s[1..][i] == FirstMatch(s, p).value;
        assert s[i + 1] == FirstMatch(s, p).value;
      }
    }
  }

  // Sorting and taking the first match is the same as taking the best match of the input, ties to
  // the earliest; there is none exactly when nothing matches.
  lemma {:induction false} FirstMatchOfSorted<T(!new)>(s: seq<T>, less: (T, T) -> bool, p: T -> bool)
    requires StrictWeak(less)
    ensures var m := FirstMatch(StableSort(s, less), p);
            if m.Some? then exists i :: IsBest(s, less, p, i) && s[i] == m.value
            else forall i :: 0 <= i < |s| ==> !p(s[i])
  {
    if s != [] {
      var tail := s[1..];
      FirstMatchOfSorted(tail, less, p);
      StableSortSorts(tail, less);
      FirstMatchInsert(s[0], StableSort(tail, less), less, p);
      var m := FirstMatch(StableSort(tail, less), p);
      if m.Some? {
        var i :| IsBest(tail, less, p, i) && tail[i] == m.value;
        if p(s[0]) && !less(m.value, s[0]) {
          forall j | 0 <= j < |s| && p(s[j]) ensures !less(s[j], s[0]) {
            assert j > 0 ==> s[j] == tail[j - 1];
          }
          assert IsBest(s, less, p, 0);
        } else {
          forall j | 0 <= j < |s| && p(s[j])
            ensures !less(s[j], s[i + 1]) && (j < i + 1 ==> less(s[i + 1], s[j]))
          {
            assert j > 0 ==> s[j] == tail[j - 1];
          }
          assert IsBest(s, less, p, i + 1);
        }
      } else if p(s[0]) {
        forall j | 0 < j < |s| ensures !p(s[j]) { assert s[j] == tail[j - 1]; }
        assert IsBest(s, less, p, 0);
      } else {
        forall j | 0 <= j < |s| ensures !p(s[j]) { assert j > 0 ==> s[j] == tail[j - 1]; }
      }
    }
  }

  // ----- A stable sort is determined by the order of equivalent elements -----

  ghost function IfEquivalent<T>(y: T, x: T, less: (T, T) -> bool): seq<T> {
    if !less(y, x) && !less(x, y) then [y] else []
  }

  // The elements of s equivalent to x, in order.
  ghost function Equivalents<T>(s: seq<T>, x: T, less: (T, T) -> bool): seq<T> {
    if s == [] then [] else IfEquivalent(s[0], x, less) + Equivalents(s[1..], x, less)
  }

  ghost predicate SameGroups<T(!new)>(s: seq<T>, t: seq<T>, less: (T, T) -> bool) {
    forall x :: Equivalents(s, x, less) == Equivalents(t, x, less)
  }

  lemma {:induction false} InsertKeepsGroups<T(!new)>(x: T, s: seq<T>, less: (T, T) -> bool, y: T)
    requires StrictWeak(less)
    ensures Equivalents(Insert(x, s, less), y, less) == Equivalents([x] + s, y, less)
  {
    assert ([x] + s)[1..] == s;
    if s != [] && less(s[0], x) {
      InsertKeepsGroups(x, s[1..], less, y);
      assert ([x] + s[1..])[1..] == s[1..];
      assert Insert(x, s, less)[1..] == Insert(x, s[1..], less);
    }
  }

  lemma {:induction false} StableSortKeepsGroups<T(!new)>(s: seq<T>, less: (T, T) -> bool)
    requires StrictWeak(less)
    ensures SameGroups(StableSort(s, less), s, less)
  {
    if s != [] {
      StableSortKeepsGroups(s[1..], less);
      forall y ensures Equivalents(StableSort(s, less), y, less) == Equivalents(s, y, less) {
        InsertKeepsGroups(s[0], StableSort(s[1..], less), less, y);
        assert ([s[0]] + StableSort(s[1..], less))[1..] == StableSort(s[1..], less);
      }
    }
  }

  lemma {:induction false} EquivalentsFirst<T>(s: seq<T>, x: T, less: (T, T) -> bool)
    ensures Equivalents(s, x, less) != [] ==>
              exists i :: 0 <= i < |s| && !less(s[i], x) && !less(x, s[i])
  {
    if s != [] && (less(s[0], x) || less(x, s[0])) {
      EquivalentsFirst(s[1..], x, less);
      if Equivalents(s, x, less) != [] {
        var i :| 0 <= i < |s[1..]| && !less(s[1..][i], x) && !less(x, s[1..][i]);
        assert s[i + 1] == s[1..][i];
      }
    }
  }

  lemma {:induction false} EquivalentsConcat<T>(a: seq<T>, b: seq<T>, x: T, less: (T, T) -> bool)
    ensures Equivalents(a + b, x, less) == Equivalents(a, x, less) + Equivalents(b, x, less)
  {
    hide IfEquivalent;
    if a == [] {
      assert a + b == b;
    } else {
      EquivalentsConcat(a[1..], b, x, less);
      assert (a + b)[0] == a[0] && (a + b)[1..] == a[1..] + b;
      assert Equivalents(a + b, x, less)
          == IfEquivalent(a[0], x, less) + (Equivalents(a[1..], x, less) + Equivalents(b, x, less));
    }
  }

  lemma SameGroupsBothEmpty<T(!new)>(s: seq<T>, t: seq<T>, less: (T, T) -> bool)
    requires StrictWeak(less) && SameGroups(s, t, less)
    ensures s == [] <==> t == []
  {
    if s != [] { assert Equivalents(t, s[0], less) != []; }
    if t != [] { assert Equivalents(s, t[0], less) != []; }
  }

  // Two sorted sequences that agree on every group of equivalent elements are equal.
  lemma {:induction false} SortedUnique<T(!new)>(s: seq<T>, t: seq<T>, less: (T, T) -> bool)
    requires StrictWeak(less) && Sorted(s, less) && Sorted(t, less) && SameGroups(s, t, less)
    ensures s == t
    decreases |s| + |t|
  {
    SameGroupsBothEmpty(s, t, less);
    if s != [] {
      assert Equivalents(s, s[0], less) == Equivalents(t, s[0], less);
      assert Equivalents(s, t[0], less) == Equivalents(t, t[0], less);
      EquivalentsFirst(t, s[0], less);
      EquivalentsFirst(s, t[0], less);
      var i :| 0 <= i < |t| && !less(t[i], s[0]) && !less(s[0], t[i]);
      var j :| 0 <= j < |s| && !less(s[j], t[0]) && !less(t[0], s[j]);
      assert i > 0 ==> !less(t[i], t[0]);
      assert j > 0 ==> !less(s[j], s[0]);
      assert !less(s[0], t[0]) && !less(t[0], s[0]);
      assert Equivalents(s, s[0], less)[0] == s[0];
      assert Equivalents(t, s[0], less)[0] == t[0];
      forall x ensures Equivalents(s[1..], x, less) == Equivalents(t[1..], x, less) {
        assert Equivalents(s, x, less) == Equivalents(t, x, less);
        var head := IfEquivalent(s[0], x, less);
        assert Equivalents(s[1..], x, less) == Equivalents(s, x, less)[|head|..];
        assert Equivalents(t[1..], x, less) == Equivalents(t, x, less)[|head|..];
      }
      SortedUnique(s[1..], t[1..], less);
      assert s == [s[0]] + s[1..] && t == [t[0]] + t[1..];
    }
  }

  // Hence the result ignores how the groups were interleaved in the input.
  lemma StableSortByGroups<T(!new)>(s: seq<T>, t: seq<T>, less: (T, T) -> bool)
    requires StrictWeak(less) && SameGroups(s, t, less)
    ensures StableSort(s, less) == StableSort(t, less)
  {
    StableSortSorts(s, less);
    StableSortSorts(t, less);
    StableSortKeepsGroups(s, less);
    StableSortKeepsGroups(t, less);
    forall x ensures Equivalents(StableSort(s, less), x, less) == Equivalents(StableSort(t, less), x, less) {
      assert Equivalents(StableSort(s, less), x, less) == Equivalents(s, x, less);
      assert Equivalents(StableSort(t, less), x, less) == Equivalents(t, x, less);
      assert Equivalents(s, x, less) == Equivalents(t, x, less);
    }
    SortedUnique(StableSort(s, less), StableSort(t, less), less);
  }
}
