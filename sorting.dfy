/** `Array.prototype.sort(compare)`: an in-place sort driven by a comparator
    that answers a negative number, zero or a positive number. */
module Sorting {

  /** `cmp(x, y) <= 0` is a total preorder: any two elements are comparable
      and the relation is transitive. Every comparator in the list view is one. */
  ghost predicate ConsistentComparator<T(!new)>(cmp: (T, T) -> int)
  {
    && (forall x, y :: MayPrecede(cmp, x, y) || MayPrecede(cmp, y, x))
    && (forall x, y, z :: MayPrecede(cmp, x, y) && MayPrecede(cmp, y, z) ==> MayPrecede(cmp, x, z))
  }

  /** `x` may stay before `y`. */
  ghost predicate MayPrecede<T>(cmp: (T, T) -> int, x: T, y: T)
  {
    cmp(x, y) <= 0
  }

  /** No later element must come before an earlier one. */
  ghost predicate SortedBy<T>(s: seq<T>, cmp: (T, T) -> int)
  {
    forall i, j :: 0 <= i < j < |s| ==> cmp(s[i], s[j]) <= 0
  }

  /** Sorts `a` in place by insertion: each new element is moved down
      until its left neighbour may precede it. */
  method Sort<T(!new)>(a: array<T>, cmp: (T, T) -> int)
    requires ConsistentComparator(cmp)
    modifies a
    ensures SortedBy(a[..], cmp)
    ensures multiset(a[..]) == old(multiset(a[..]))
  {
    var i := 0;
    while i < a.Length
      invariant 0 <= i <= a.Length
      invariant SortedBy(a[..i], cmp)
      invariant multiset(a[..]) == old(multiset(a[..]))
    {
      InsertNext(a, i, cmp);
      i := i + 1;
    }
    assert a[..a.Length] == a[..];
  }

  /** While `a[i]` travels down to index `j`, the rest of `a[..i + 1]` stays
      sorted and the travelling element may precede everything to its right. */
  ghost predicate Inserting<T>(s: seq<T>, i: nat, j: nat, cmp: (T, T) -> int)
  {
    && j <= i < |s|
    && (forall p, q :: 0 <= p < q <= i && p != j && q != j ==> cmp(s[p], s[q]) <= 0)
    && (forall q :: j < q <= i ==> cmp(s[j], s[q]) <= 0)
  }

  lemma StartInserting<T>(s: seq<T>, i: nat, cmp: (T, T) -> int)
    requires i < |s| && SortedBy(s[..i], cmp)
    ensures Inserting(s, i, i, cmp)
  {
  }

  /** Swapping the travelling element with a left neighbour that may not
      precede it keeps `Inserting`, one place further down. */
  lemma SwapDown<T(!new)>(s: seq<T>, i: nat, j: nat, cmp: (T, T) -> int)
    requires ConsistentComparator(cmp)
    requires Inserting(s, i, j, cmp) && 0 < j && cmp(s[j - 1], s[j]) > 0
    ensures Inserting(s[j - 1 := s[j]][j := s[j - 1]], i, j - 1, cmp)
  {
    var t := s[j - 1 := s[j]][j := s[j - 1]];
    forall q | j - 1 < q <= i
      ensures cmp(t[j - 1], t[q]) <= 0
    {
      assert MayPrecede(cmp, s[j], s[j - 1]) || MayPrecede(cmp, s[j - 1], s[j]);
      if q > j {
        assert MayPrecede(cmp, s[j], s[j - 1]) && MayPrecede(cmp, s[j - 1], s[q]);
      }
    }
  }

  /** Once the left neighbour may precede it, the travelling element is in place. */
  lemma InPlace<T(!new)>(s: seq<T>, i: nat, j: nat, cmp: (T, T) -> int)
    requires ConsistentComparator(cmp)
    requires Inserting(s, i, j, cmp) && (j == 0 || cmp(s[j - 1], s[j]) <= 0)
    ensures SortedBy(s[..i + 1], cmp)
  {
    forall p, q | 0 <= p < q <= i
      ensures cmp(s[p], s[q]) <= 0
    {
      if q == j && p < j - 1 {
        assert MayPrecede(cmp, s[p], s[j - 1]) && MayPrecede(cmp, s[j - 1], s[j]);
      }
    }
  }

  /** Moves `a[i]` into place within the sorted prefix `a[..i]`. */
  method InsertNext<T(!new)>(a: array<T>, i: nat, cmp: (T, T) -> int)
    requires ConsistentComparator(cmp)
    requires i < a.Length
    requires SortedBy(a[..i], cmp)
    modifies a
    ensures SortedBy(a[..i + 1], cmp)
    ensures multiset(a[..]) == old(multiset(a[..]))
  {
    var j: nat := i;
    StartInserting(a[..], i, cmp);
    while j > 0 && cmp(a[j - 1], a[j]) > 0
      invariant Inserting(a[..], i, j, cmp)
      invariant multiset(a[..]) == old(multiset(a[..]))
    {
      ghost var s := a[..];
      SwapDown(s, i, j, cmp);
      a[j - 1], a[j] := a[j], a[j - 1];
      assert a[..] == s[j - 1 := s[j]][j := s[j - 1]];
      j := j - 1;
    }
    InPlace(a[..], i, j, cmp);
  }

  /** The comparator `(x, y) => key(x) - key(y)`: ascending by a numeric key. */
  function Ascending<T>(key: T -> int): (T, T) -> int
  {
    (x, y) => key(x) - key(y)
  }

  /** The comparator `(x, y) => key(y) - key(x)`: descending by a numeric key. */
  function Descending<T>(key: T -> int): (T, T) -> int
  {
    (x, y) => key(y) - key(x)
  }

  lemma AscendingConsistent<T(!new)>(key: T -> int)
    ensures ConsistentComparator(Ascending(key))
  {
  }

  lemma DescendingConsistent<T(!new)>(key: T -> int)
    ensures ConsistentComparator(Descending(key))
  {
  }
}
