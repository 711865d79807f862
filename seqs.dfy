/** Array.prototype.filter on sequences, and what it keeps. */
module Seqs {

  /** The elements of `s` that satisfy `p`, in their original order. */
  function Filter<T(!new)>(s: seq<T>, p: T -> bool): (r: seq<T>)
    ensures |r| <= |s|
    ensures forall x :: x in r <==> x in s && p(x)
    ensures forall x :: multiset(r)[x] == if p(x) then multiset(s)[x] else 0
  {
    SelectKeeps(s, p);
    Select(s, p)
  }

  /** The recursion behind Filter, without its contract, so that proofs about
      the recursion do not carry Filter's quantified facts along. */
  function Select<T>(s: seq<T>, p: T -> bool): seq<T>
  {
    if s == [] then []
    else (if p(s[0]) then [s[0]] else []) + Select(s[1..], p)
  }

  lemma {:induction false} SelectKeeps<T(!new)>(s: seq<T>, p: T -> bool)
    ensures |Select(s, p)| <= |s|
    ensures forall x :: x in Select(s, p) <==> x in s && p(x)
    ensures forall x :: multiset(Select(s, p))[x] == if p(x) then multiset(s)[x] else 0
  {
    if s != [] {
      SelectKeeps(s[1..], p);
      assert s == [s[0]] + s[1..];
    }
  }

  /** Filtering a sequence with a first element decides that element and filters the rest. */
  lemma FilterCons<T(!new)>(x: T, s: seq<T>, p: T -> bool)
    ensures Filter([x] + s, p) == (if p(x) then [x] else []) + Filter(s, p)
  {
    assert ([x] + s)[0] == x && ([x] + s)[1..] == s;
  }

  /** Selecting from a concatenation selects from each part. */
  lemma {:induction false} SelectAppend<T>(a: seq<T>, b: seq<T>, p: T -> bool)
    ensures Select(a + b, p) == Select(a, p) + Select(b, p)
  {
    if a == [] {
      assert a + b == b;
    } else {
      var head := if p(a[0]) then [a[0]] else [];
      var ab := a + b;
      assert ab != [] && ab[0] == a[0] && ab[1..] == a[1..] + b;
      assert Select(ab, p) == head + Select(a[1..] + b, p);
      SelectAppend(a[1..], b, p);
      assert Select(a, p) == head + Select(a[1..], p);
      assert head + (Select(a[1..], p) + Select(b, p)) == (head + Select(a[1..], p)) + Select(b, p);
    }
  }

  /** A filter keeps every element exactly when every element passes. */
  lemma FilterKeepsAllIff<T(!new)>(s: seq<T>, p: T -> bool)
    ensures |Filter(s, p)| == |s| <==> forall x :: x in s ==> p(x)
  {
    SelectKeepsAllIff(s, p);
  }

  lemma {:induction false} SelectKeepsAllIff<T(!new)>(s: seq<T>, p: T -> bool)
    ensures |Select(s, p)| == |s| <==> forall x :: x in s ==> p(x)
  {
    if s != [] {
      SelectKeeps(s[1..], p);
      SelectKeepsAllIff(s[1..], p);
      assert forall x :: x in s ==> x == s[0] || x in s[1..];
    }
  }

  /** A selection that every element passes returns its input unchanged. */
  lemma {:induction false} SelectAllPass<T(!new)>(s: seq<T>, p: T -> bool)
    requires forall x :: x in s ==> p(x)
    ensures Select(s, p) == s
  {
    if s != [] {
      assert p(s[0]) by { assert s[0] in s; }
      assert forall x :: x in s[1..] ==> x in s;
      SelectAllPass(s[1..], p);
      assert s == [s[0]] + s[1..];
    }
  }

  /** A filter that rejects exactly the element at `k` removes that one
      position and keeps the rest in order. */
  lemma FilterDropsOne<T(!new)>(s: seq<T>, k: nat, p: T -> bool)
    requires k < |s| && !p(s[k])
    requires forall i :: 0 <= i < |s| && i != k ==> p(s[i])
    ensures Filter(s, p) == s[..k] + s[k + 1..]
  {
    SelectDropsOne(s, k, p);
  }

  lemma SelectDropsOne<T(!new)>(s: seq<T>, k: nat, p: T -> bool)
    requires k < |s| && !p(s[k])
    requires forall i :: 0 <= i < |s| && i != k ==> p(s[i])
    ensures Select(s, p) == s[..k] + s[k + 1..]
  {
    var front, back := s[..k], s[k + 1..];
    assert s == front + ([s[k]] + back);
    assert Select([s[k]], p) == [] by { assert [s[k]][1..] == []; }
    assert forall x :: x in front ==> p(x);
    SelectAllPass(front, p);
    assert forall x :: x in back ==> p(x);
    SelectAllPass(back, p);
    calc {
      Select(s, p);
      Select(front + ([s[k]] + back), p);
      { SelectAppend(front, [s[k]] + back, p); }
      Select(front, p) + Select([s[k]] + back, p);
      { SelectAppend([s[k]], back, p); }
      front + (Select([s[k]], p) + Select(back, p));
      { assert [] + back == back; }
      front + back;
    }
  }

  /** The number of elements of `s` that satisfy `p`. */
  function Count<T(!new)>(s: seq<T>, p: T -> bool): (n: nat)
    ensures n <= |s|
  {
    |Filter(s, p)|
  }
}
