/** A stable insertion sort by a caller-supplied "comes no later than"
    relation, standing in for Array.prototype.sort with a comparator. */
module Sorting {

  /** Any two values are related one way or the other. */
  ghost predicate Total<T(!new)>(le: (T, T) -> bool) {
    forall a, b :: le(a, b) || le(b, a)
  }

  /** The relation chains. */
  ghost predicate Transitive<T(!new)>(le: (T, T) -> bool) {
    forall a, b, c :: le(a, b) && le(b, c) ==> le(a, c)
  }

  /** Each element comes no later than the next one. */
  predicate Sorted<T>(s: seq<T>, le: (T, T) -> bool) {
    forall i :: 0 <= i < |s| - 1 ==> le(s[i], s[i + 1])
  }

  /** `x` placed before the first element it may precede. */
  function Insert<T>(x: T, s: seq<T>, le: (T, T) -> bool): seq<T> {
    if s == [] then [x]
    else if le(x, s[0]) then [x] + s
    else [s[0]] + Insert(x, s[1..], le)
  }

  /** Each element, last first, inserted into the sorted rest. The first of
      two equal elements is inserted last and so placed before the other:
      the sort is stable. */
  function Sort<T>(s: seq<T>, le: (T, T) -> bool): seq<T> {
    if s == [] then [] else Insert(s[0], Sort(s[1..], le), le)
  }

  /** Inserting adds exactly `x`, and the result starts with `x` or with the
      first element of `s`. */
  lemma {:induction false} InsertAdds<T>(x: T, s: seq<T>, le: (T, T) -> bool)
    ensures |Insert(x, s, le)| == |s| + 1
    ensures multiset(Insert(x, s, le)) == multiset(s) + multiset{x}
    ensures Insert(x, s, le)[0] == x || (s != [] && Insert(x, s, le)[0] == s[0])
  {
    if s != [] && !le(x, s[0]) {
      InsertAdds(x, s[1..], le);
      assert s == [s[0]] + s[1..];
    }
  }

  /** Sorting permutes: the same elements, each as often. */
  lemma {:induction false} SortPermutes<T>(s: seq<T>, le: (T, T) -> bool)
    ensures multiset(Sort(s, le)) == multiset(s)
    ensures |Sort(s, le)| == |s|
  {
    if s != [] {
      SortPermutes(s[1..], le);
      InsertAdds(s[0], Sort(s[1..], le), le);
      assert s == [s[0]] + s[1..];
    }
  }

  lemma {:induction false} InsertSorted<T(!new)>(x: T, s: seq<T>, le: (T, T) -> bool)
    requires Total(le) && Sorted(s, le)
    ensures Sorted(Insert(x, s, le), le)
  {
    if s != [] && !le(x, s[0]) {
      InsertSorted(x, s[1..], le);
      InsertAdds(x, s[1..], le);
      assert le(s[0], x);
    }
  }

  /** With a total relation the result is sorted. */
  lemma {:induction false} SortSorted<T(!new)>(s: seq<T>, le: (T, T) -> bool)
    requires Total(le)
    ensures Sorted(Sort(s, le), le)
  {
    if s != [] {
      SortSorted(s[1..], le);
      InsertSorted(s[0], Sort(s[1..], le), le);
    }
  }

  /** With a transitive relation, each element of a sorted sequence comes no
      later than every element after it. */
  lemma {:induction false} SortedPairwise<T(!new)>(s: seq<T>, le: (T, T) -> bool, i: nat, j: nat)
    requires Transitive(le) && Sorted(s, le) && i < j < |s|
    ensures le(s[i], s[j])
    decreases j - i
  {
    if i + 1 < j {
      SortedPairwise(s, le, i + 1, j);
      assert le(s[i], s[i + 1]);
    }
  }

  /** Sorting three elements, one insertion at a time. */
  lemma SortThree<T>(a: T, b: T, c: T, le: (T, T) -> bool)
    ensures Sort([a, b, c], le) == Insert(a, Insert(b, [c], le), le)
  {
    var s := [a, b, c];
    assert s[1..] == [b, c] && s[1..][1..] == [c] && s[1..][1..][1..] == [];
    assert Sort([c], le) == Insert(c, [], le) == [c];
    assert Sort([b, c], le) == Insert(b, Sort([c], le), le);
  }

  /** A prefix of a sorted sequence is sorted, is drawn from it, and comes
      no later than anything the prefix leaves out. */
  lemma PrefixOfSorted<T(!new)>(s: seq<T>, le: (T, T) -> bool, k: nat)
    requires Transitive(le) && Sorted(s, le) && k <= |s|
    ensures Sorted(s[..k], le)
    ensures multiset(s[..k]) <= multiset(s)
    ensures forall x, y :: x in s[..k] && y in s && y !in s[..k] ==> le(x, y)
  {
    assert s == s[..k] + s[k..];
    forall x, y | x in s[..k] && y in s && y !in s[..k] ensures le(x, y) {
      var i :| 0 <= i < k && s[i] == x;
      var j :| 0 <= j < |s| && s[j] == y;
      SortedPairwise(s, le, i, j);
    }
  }
}
