/**
 * Lists without duplicates, and the list a JavaScript `Set` yields when the
 * elements of a sequence are added to it one by one: each value once, in the
 * order of its first occurrence.
 */
module Seqs {

  /** No value occurs twice. */
  ghost predicate NoDup<T>(s: seq<T>) {
    forall i, j :: 0 <= i < j < |s| ==> s[i] != s[j]
  }

  /** `Array.from(set)` after `set.add(x)` for each x of s in order. */
  function Distinct<T(==)>(s: seq<T>): seq<T>
  {
    if s == [] then []
    else
      var d := Distinct(s[..|s| - 1]);
      if s[|s| - 1] in d then d else d + [s[|s| - 1]]
  }

  /** The set fill keeps exactly the values of s and never one twice. */
  lemma {:induction false} DistinctSpec<T>(s: seq<T>)
    ensures NoDup(Distinct(s))
    ensures forall x :: x in Distinct(s) <==> x in s
    ensures |Distinct(s)| <= |s|
  {
    if s != [] {
      var init := s[..|s| - 1];
      DistinctSpec(init);
      assert s == init + [s[|s| - 1]];
    }
  }

  /** The index of the first occurrence of x in s. */
  function FirstPos<T(==)>(s: seq<T>, x: T): (p: nat)
    requires x in s
    ensures p < |s| && s[p] == x
    ensures forall k :: 0 <= k < p ==> s[k] != x
  {
    var init := s[..|s| - 1];
    if x in init then FirstPos(init, x) else |s| - 1
  }

  /**
   * The set fill keeps s's elements in order, and lists x before y exactly
   * when x first occurs in s before y does.
   */
  lemma {:induction false} DistinctOrder<T>(s: seq<T>)
    ensures Subsequence(Distinct(s), s)
    ensures forall x :: x in Distinct(s) ==> x in s
    ensures forall i, j :: 0 <= i < |Distinct(s)| && 0 <= j < |Distinct(s)| ==>
              (i < j <==> FirstPos(s, Distinct(s)[i]) < FirstPos(s, Distinct(s)[j]))
  {
    DistinctSpec(s);
    DistinctMonotone(s);
    var d := Distinct(s);
    forall i, j | 0 <= i < |d| && 0 <= j < |d|
      ensures i < j <==> FirstPos(s, d[i]) < FirstPos(s, d[j])
    {
      if j < i {
        assert FirstPos(s, d[j]) < FirstPos(s, d[i]);
      }
    }
  }

  /** Later positions of the set fill hold later first occurrences. */
  lemma {:induction false} DistinctMonotone<T>(s: seq<T>)
    ensures Subsequence(Distinct(s), s)
    ensures forall x :: x in Distinct(s) ==> x in s
    ensures forall i, j :: 0 <= i < j < |Distinct(s)| ==> FirstPos(s, Distinct(s)[i]) < FirstPos(s, Distinct(s)[j])
  {
    DistinctSpec(s);
    if s == [] {
      SubsequenceEmpty(s);
    } else {
      var init := s[..|s| - 1];
      var y := s[|s| - 1];
      var d := Distinct(init);
      DistinctMonotone(init);
      DistinctSpec(init);
      assert s == init + [y];
      forall x | x in init ensures FirstPos(s, x) == FirstPos(init, x) {
      }
      if y in d {
        SubsequenceSkip(d, init, y);
      } else {
        SubsequenceTake(d, init, y);
        forall i, j | 0 <= i < j < |d + [y]|
          ensures FirstPos(s, (d + [y])[i]) < FirstPos(s, (d + [y])[j])
        {
          assert (d + [y])[i] == d[i] && d[i] in init;
          if j < |d| {
            assert (d + [y])[j] == d[j];
          }
        }
      }
    }
  }

  /** Appending a value already seen leaves the set fill unchanged. */
  lemma DistinctAppendSeen<T>(s: seq<T>, x: T)
    requires x in s
    ensures Distinct(s + [x]) == Distinct(s)
  {
    assert (s + [x])[..|s|] == s;
    DistinctSpec(s);
  }

  /** Appending a new value adds it at the end. */
  lemma DistinctAppendNew<T>(s: seq<T>, x: T)
    requires x !in s
    ensures Distinct(s + [x]) == Distinct(s) + [x]
  {
    assert (s + [x])[..|s|] == s;
    DistinctSpec(s);
  }

  /** A list without duplicates is its own set fill. */
  lemma {:induction false} DistinctOfNoDup<T>(s: seq<T>)
    requires NoDup(s)
    ensures Distinct(s) == s
  {
    if s != [] {
      var init := s[..|s| - 1];
      assert NoDup(init);
      DistinctOfNoDup(init);
      assert s[|s| - 1] !in init;
      assert s == init + [s[|s| - 1]];
    }
  }

  /** No duplicates means every value occurs at most once in the multiset. */
  lemma {:induction false} NoDupMultiset<T>(s: seq<T>)
    ensures NoDup(s) <==> forall x :: multiset(s)[x] <= 1
  {
    if s != [] {
      var init := s[..|s| - 1];
      var y := s[|s| - 1];
      NoDupMultiset(init);
      assert s == init + [y];
      assert multiset(s) == multiset(init) + multiset{y};
      if NoDup(s) {
        assert NoDup(init) by {
          forall i, j | 0 <= i < j < |init| ensures init[i] != init[j] {
            assert init[i] == s[i] && init[j] == s[j];
          }
        }
        assert y !in init;
      }
      if forall x :: multiset(s)[x] <= 1 {
        assert forall x :: multiset(init)[x] <= 1 by {
          forall x ensures multiset(init)[x] <= 1 {
            assert multiset(s)[x] <= 1;
          }
        }
        assert multiset(s)[y] <= 1;
        assert y !in init;
        forall i, j | 0 <= i < j < |s| ensures s[i] != s[j] {
          if j == |s| - 1 {
            assert s[i] in init;
          } else {
            assert init[i] == s[i] && init[j] == s[j];
          }
        }
      }
    }
  }

  /** A permutation of a list without duplicates has none either. */
  lemma NoDupPermutation<T>(a: seq<T>, b: seq<T>)
    requires multiset(a) == multiset(b)
    requires NoDup(a)
    ensures NoDup(b)
  {
    NoDupMultiset(a);
    NoDupMultiset(b);
  }

  /** idx lists, in increasing order, positions of b that spell out a. */
  ghost predicate Embeds<T>(idx: seq<nat>, a: seq<T>, b: seq<T>) {
    && |idx| == |a|
    && (forall i :: 0 <= i < |idx| ==> idx[i] < |b| && a[i] == b[idx[i]])
    && (forall i, j :: 0 <= i < j < |idx| ==> idx[i] < idx[j])
  }

  /** a is b with some elements left out and the rest in their order. */
  ghost predicate Subsequence<T>(a: seq<T>, b: seq<T>) {
    exists idx: seq<nat> :: Embeds(idx, a, b)
  }

  lemma SubsequenceEmpty<T>(b: seq<T>)
    ensures Subsequence([], b)
  {
    assert Embeds([], [], b);
  }

  /** Another element of b may be skipped. */
  lemma SubsequenceSkip<T>(a: seq<T>, b: seq<T>, y: T)
    requires Subsequence(a, b)
    ensures Subsequence(a, b + [y])
  {
    var idx: seq<nat> :| Embeds(idx, a, b);
    assert Embeds(idx, a, b + [y]);
  }

  /** Another element of b may be kept. */
  lemma SubsequenceTake<T>(a: seq<T>, b: seq<T>, y: T)
    requires Subsequence(a, b)
    ensures Subsequence(a + [y], b + [y])
  {
    var idx: seq<nat> :| Embeds(idx, a, b);
    var idx': seq<nat> := idx + [|b|];
    assert Embeds(idx', a + [y], b + [y]);
  }

  /** Leaving elements out of a list without duplicates creates none. */
  lemma SubsequenceNoDup<T>(a: seq<T>, b: seq<T>)
    requires Subsequence(a, b)
    requires NoDup(b)
    ensures NoDup(a)
  {
    var idx: seq<nat> :| Embeds(idx, a, b);
    forall i, j | 0 <= i < j < |a| ensures a[i] != a[j] {
      assert b[idx[i]] != b[idx[j]];
    }
  }
}
