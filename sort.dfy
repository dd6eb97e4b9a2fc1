/**
 * `Array.prototype.sort` with a comparator `(a, b) => key(b) - key(a)`:
 * descending by an integer key, and stable (required of the library since
 * ECMAScript 2019), specified as insertion of each element, in input order,
 * after every element already placed whose key is not smaller.
 */
module ContentSort {
  import opened Types

  /** The key each sort mode compares. */
  function SortKey(c: Content, mode: SortOption): int {
    match mode
    case ByRating => c.rating
    case ByLatest => c.releaseYear
    case ByPopularity => c.popularity
  }

  /** Non-increasing in the mode's key. */
  ghost predicate SortedDesc(s: seq<Content>, mode: SortOption) {
    forall i, j :: 0 <= i < j < |s| ==> SortKey(s[i], mode) >= SortKey(s[j], mode)
  }

  /** Places x after the leading elements whose key is at least x's. */
  function Insert(x: Content, s: seq<Content>, mode: SortOption): seq<Content> {
    if s == [] then [x]
    else if SortKey(s[0], mode) >= SortKey(x, mode) then [s[0]] + Insert(x, s[1..], mode)
    else [x] + s
  }

  /** The stable descending sort of s. */
  function SortContents(s: seq<Content>, mode: SortOption): seq<Content> {
    if s == [] then []
    else Insert(s[|s| - 1], SortContents(s[..|s| - 1], mode), mode)
  }

  /** The elements of s with the given key, in their order in s. */
  function WithKey(s: seq<Content>, mode: SortOption, k: int): seq<Content> {
    if s == [] then []
    else if SortKey(s[0], mode) == k then [s[0]] + WithKey(s[1..], mode, k)
    else WithKey(s[1..], mode, k)
  }

  lemma {:induction false} WithKeyConcat(a: seq<Content>, b: seq<Content>, mode: SortOption, k: int)
    ensures WithKey(a + b, mode, k) == WithKey(a, mode, k) + WithKey(b, mode, k)
  {
    if a == [] {
      assert a + b == b;
    } else {
      assert (a + b)[1..] == a[1..] + b;
      WithKeyConcat(a[1..], b, mode, k);
      if SortKey(a[0], mode) == k {
        assert [a[0]] + (WithKey(a[1..], mode, k) + WithKey(b, mode, k))
            == ([a[0]] + WithKey(a[1..], mode, k)) + WithKey(b, mode, k);
      }
    }
  }

  lemma {:induction false} WithKeyAbove(s: seq<Content>, mode: SortOption, k: int)
    requires forall i :: 0 <= i < |s| ==> SortKey(s[i], mode) < k
    ensures WithKey(s, mode, k) == []
  {
    if s != [] {
      WithKeyAbove(s[1..], mode, k);
    }
  }

  lemma SortedTail(s: seq<Content>, mode: SortOption)
    requires s != [] && SortedDesc(s, mode)
    ensures SortedDesc(s[1..], mode)
    ensures forall j :: 0 <= j < |s| ==> SortKey(s[0], mode) >= SortKey(s[j], mode)
  {
    forall i, j | 0 <= i < j < |s[1..]| ensures SortKey(s[1..][i], mode) >= SortKey(s[1..][j], mode) {
      assert s[1..][i] == s[i + 1] && s[1..][j] == s[j + 1];
    }
  }

  lemma {:induction false} InsertMultiset(x: Content, s: seq<Content>, mode: SortOption)
    ensures multiset(Insert(x, s, mode)) == multiset(s) + multiset{x}
  {
    if s != [] && SortKey(s[0], mode) >= SortKey(x, mode) {
      InsertMultiset(x, s[1..], mode);
      assert s == [s[0]] + s[1..];
    }
  }

  /** Every key in s is at most `top`, and so is x's: then the same holds of Insert(x, s). */
  lemma {:induction false} InsertBounded(x: Content, s: seq<Content>, mode: SortOption, top: int)
    requires SortKey(x, mode) <= top
    requires forall j :: 0 <= j < |s| ==> SortKey(s[j], mode) <= top
    ensures forall j :: 0 <= j < |Insert(x, s, mode)| ==> SortKey(Insert(x, s, mode)[j], mode) <= top
  {
    if s != [] && SortKey(s[0], mode) >= SortKey(x, mode) {
      InsertBounded(x, s[1..], mode, top);
    }
  }

  lemma {:induction false} InsertSorted(x: Content, s: seq<Content>, mode: SortOption)
    requires SortedDesc(s, mode)
    ensures SortedDesc(Insert(x, s, mode), mode)
  {
    if s != [] && SortKey(s[0], mode) >= SortKey(x, mode) {
      SortedTail(s, mode);
      InsertSorted(x, s[1..], mode);
      InsertBounded(x, s[1..], mode, SortKey(s[0], mode));
    }
  }

  /** Insertion puts x after every element of its key that is already placed. */
  lemma {:induction false} InsertWithKey(x: Content, s: seq<Content>, mode: SortOption, k: int)
    requires SortedDesc(s, mode)
    ensures SortKey(x, mode) == k ==> WithKey(Insert(x, s, mode), mode, k) == WithKey(s, mode, k) + [x]
    ensures SortKey(x, mode) != k ==> WithKey(Insert(x, s, mode), mode, k) == WithKey(s, mode, k)
  {
    if s == [] {
      assert [x][1..] == [];
    } else if SortKey(s[0], mode) >= SortKey(x, mode) {
      SortedTail(s, mode);
      InsertWithKey(x, s[1..], mode, k);
      var rest := Insert(x, s[1..], mode);
      assert ([s[0]] + rest)[1..] == rest;
      if SortKey(s[0], mode) == k && SortKey(x, mode) == k {
        assert [s[0]] + (WithKey(s[1..], mode, k) + [x]) == ([s[0]] + WithKey(s[1..], mode, k)) + [x];
      }
    } else {
      assert ([x] + s)[1..] == s;
      SortedTail(s, mode);
      if SortKey(x, mode) == k {
        WithKeyAbove(s, mode, k);
      }
    }
  }

  lemma {:induction false} SortContentsSorted(s: seq<Content>, mode: SortOption)
    ensures SortedDesc(SortContents(s, mode), mode)
  {
    if s != [] {
      SortContentsSorted(s[..|s| - 1], mode);
      InsertSorted(s[|s| - 1], SortContents(s[..|s| - 1], mode), mode);
    }
  }

  lemma {:induction false} SortContentsMultiset(s: seq<Content>, mode: SortOption)
    ensures multiset(SortContents(s, mode)) == multiset(s)
  {
    if s != [] {
      var init := s[..|s| - 1];
      var x := s[|s| - 1];
      SortContentsMultiset(init, mode);
      InsertMultiset(x, SortContents(init, mode), mode);
      assert s == init + [x];
    }
  }

  lemma {:induction false} SortContentsStable(s: seq<Content>, mode: SortOption, k: int)
    ensures WithKey(SortContents(s, mode), mode, k) == WithKey(s, mode, k)
  {
    if s != [] {
      var init := s[..|s| - 1];
      var x := s[|s| - 1];
      SortContentsStable(init, mode, k);
      SortContentsSorted(init, mode);
      InsertWithKey(x, SortContents(init, mode), mode, k);
      assert s == init + [x];
      WithKeyConcat(init, [x], mode, k);
      assert [x][1..] == [];
    }
  }

  /**
   * The sort yields a non-increasing sequence holding exactly the input's
   * elements, and is stable: the elements sharing a key keep their input order.
   */
  lemma SortContentsSpec(s: seq<Content>, mode: SortOption)
    ensures SortedDesc(SortContents(s, mode), mode)
    ensures multiset(SortContents(s, mode)) == multiset(s)
    ensures |SortContents(s, mode)| == |s|
    ensures forall k :: WithKey(SortContents(s, mode), mode, k) == WithKey(s, mode, k)
  {
    SortContentsSorted(s, mode);
    SortContentsMultiset(s, mode);
    assert |multiset(SortContents(s, mode))| == |multiset(s)|;
    forall k ensures WithKey(SortContents(s, mode), mode, k) == WithKey(s, mode, k) {
      SortContentsStable(s, mode, k);
    }
  }
}
