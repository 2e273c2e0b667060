/** Array.prototype.filter, Array.prototype.map and the reversal used by
    compose, as functions on sequences. */
module Sequences {

  /** The elements of `s` that satisfy `p`, in their original order. */
  function Filter<T>(s: seq<T>, p: T -> bool): seq<T> {
    if s == [] then [] else (if p(s[0]) then [s[0]] else []) + Filter(s[1..], p)
  }

  /** Filtering keeps exactly the elements that satisfy the predicate, each
      as often as it occurs, and drops the others. */
  lemma {:induction false} FilterKeeps<T(!new)>(s: seq<T>, p: T -> bool)
    ensures |Filter(s, p)| <= |s|
    ensures forall x :: x in Filter(s, p) <==> x in s && p(x)
    ensures forall x :: multiset(Filter(s, p))[x] == if p(x) then multiset(s)[x] else 0
  {
    if s != [] {
      FilterKeeps(s[1..], p);
      assert s == [s[0]] + s[1..];
    }
  }

  /** Filtering keeps the order: it distributes over concatenation. */
  lemma {:induction false} FilterAppend<T(!new)>(s: seq<T>, t: seq<T>, p: T -> bool)
    ensures Filter(s + t, p) == Filter(s, p) + Filter(t, p)
  {
    if s == [] {
      assert s + t == t;
    } else {
      var head := if p(s[0]) then [s[0]] else [];
      assert (s + t)[0] == s[0] && (s + t)[1..] == s[1..] + t;
      FilterAppend(s[1..], t, p);
      assert Filter(s + t, p) == head + (Filter(s[1..], p) + Filter(t, p));
      assert Filter(s, p) == head + Filter(s[1..], p);
    }
  }

  /** Filtering twice by the same predicate changes nothing more. */
  lemma FilterIdempotent<T(!new)>(s: seq<T>, p: T -> bool)
    ensures Filter(Filter(s, p), p) == Filter(s, p)
  {
    var r := Filter(s, p);
    FilterKeeps(s, p);
    assert forall i :: 0 <= i < |r| ==> r[i] in r;
    FilterAll(r, p);
  }

  /** A predicate that holds of every element keeps the whole sequence. */
  lemma {:induction false} FilterAll<T(!new)>(s: seq<T>, p: T -> bool)
    requires forall i :: 0 <= i < |s| ==> p(s[i])
    ensures Filter(s, p) == s
  {
    if s != [] {
      FilterAll(s[1..], p);
      assert s == [s[0]] + s[1..];
    }
  }

  /** Filtering a sequence that starts with `x`. */
  lemma FilterCons<T>(x: T, t: seq<T>, p: T -> bool)
    ensures Filter([x] + t, p) == (if p(x) then [x] else []) + Filter(t, p)
  {
    assert ([x] + t)[0] == x && ([x] + t)[1..] == t;
  }

  /** Filtering four elements is deciding each one in turn. */
  lemma FilterFour<T>(s: seq<T>, p: T -> bool)
    requires |s| == 4
    ensures Filter(s, p) ==
            (if p(s[0]) then [s[0]] else []) + (if p(s[1]) then [s[1]] else []) +
            (if p(s[2]) then [s[2]] else []) + (if p(s[3]) then [s[3]] else [])
  {
    assert s == [s[0]] + [s[1], s[2], s[3]];
    FilterCons(s[0], [s[1], s[2], s[3]], p);
    FilterThree(s[1], s[2], s[3], p);
  }

  /** Filtering five elements is deciding each one in turn. */
  lemma FilterFive<T>(s: seq<T>, p: T -> bool)
    requires |s| == 5
    ensures Filter(s, p) ==
            (if p(s[0]) then [s[0]] else []) + (if p(s[1]) then [s[1]] else []) +
            (if p(s[2]) then [s[2]] else []) + (if p(s[3]) then [s[3]] else []) +
            (if p(s[4]) then [s[4]] else [])
  {
    assert s == [s[0]] + s[1..];
    FilterCons(s[0], s[1..], p);
    FilterFour(s[1..], p);
  }

  /** Filtering three elements is deciding each one in turn. */
  lemma FilterThree<T>(a: T, b: T, c: T, p: T -> bool)
    ensures Filter([a, b, c], p) ==
            (if p(a) then [a] else []) + (if p(b) then [b] else []) + (if p(c) then [c] else [])
  {
    assert [a, b, c] == [a] + [b, c] && [b, c] == [b] + [c] && [c] == [c] + [];
    FilterCons(a, [b, c], p);
    FilterCons(b, [c], p);
    FilterCons(c, [], p);
  }

  /** The first `k` elements, or all of them when there are fewer
      (Array.prototype.slice(0, k) for k >= 0). */
  function Take<T>(s: seq<T>, k: nat): (r: seq<T>)
    ensures |r| == if k < |s| then k else |s|
    ensures r == s[..|r|]
  {
    if k < |s| then s[..k] else s
  }

  function Reverse<T>(s: seq<T>): (r: seq<T>)
    ensures |r| == |s|
    ensures forall i :: 0 <= i < |s| ==> r[i] == s[|s| - 1 - i]
  {
    if s == [] then [] else Reverse(s[1..]) + [s[0]]
  }

  /** Reversing a sequence with one more element at the end puts that
      element first. */
  lemma {:induction false} ReverseSnoc<T>(s: seq<T>, x: T)
    ensures Reverse(s + [x]) == [x] + Reverse(s)
  {
    if s == [] {
      assert s + [x] == [x] && [x][1..] == [];
    } else {
      assert (s + [x])[0] == s[0] && (s + [x])[1..] == s[1..] + [x];
      ReverseSnoc(s[1..], x);
    }
  }

  /** `f` applied to each element, in order. */
  function Map<T, U>(s: seq<T>, f: T -> U): (r: seq<U>)
    ensures |r| == |s|
    ensures forall i :: 0 <= i < |s| ==> r[i] == f(s[i])
  {
    seq(|s|, i requires 0 <= i < |s| => f(s[i]))
  }
}
