/** The mehndi artist's recursive helpers: repeating a motif, summing and
    flattening nested arrays, palindromes and the symmetric border pattern. */
module MehndiPattern {
  import opened Wrappers
  import opened Text
  import opened Sequences

  /** A JavaScript value as far as these helpers look at it: a number, a
      string, an array of values, or anything else. */
  datatype Value = Number(n: real) | Str(s: string) | Array(items: seq<Value>) | Other

  /** `motif` written `n` times; "" when `n` <= 0 or the motif is not a
      string or is empty. */
  function RepeatChar(motif: Option<string>, n: int): (r: string)
    ensures motif.None? || motif.value == "" || n <= 0 ==> r == ""
    ensures motif.Some? && n > 0 ==> |r| == |motif.value| * n
    ensures motif.Some? && n > 0 ==> StartsWith(r, motif.value)
    ensures motif.Some? ==> forall i :: |motif.value| <= i < |r| ==> r[i] == r[i - |motif.value|]
    decreases n
  {
    if motif.None? || motif.value == "" || n <= 0 then ""
    else
      var c := motif.value;
      var rest := RepeatChar(motif, n - 1);
      var r := c + rest;
      assert r[..|c|] == c;
      assert forall i :: |c| <= i < |r| ==> r[i] == rest[i - |c|];
      r
  }

  /** Repeating `m` times and then `n` times is repeating `m + n` times. */
  lemma {:induction false} RepeatCharAdds(motif: string, m: nat, n: nat)
    ensures RepeatChar(Some(motif), m + n) == RepeatChar(Some(motif), m) + RepeatChar(Some(motif), n)
  {
    if motif == "" {
      assert RepeatChar(Some(motif), m + n) == "" + "";
    } else if m == 0 {
      assert RepeatChar(Some(motif), m + n) == "" + RepeatChar(Some(motif), n);
    } else {
      RepeatCharAdds(motif, m - 1, n);
      RepeatCharStep(motif, m, n);
    }
  }

  /** One more motif in front of `m - 1` repetitions. */
  lemma RepeatCharStep(motif: string, m: nat, n: nat)
    requires motif != "" && m > 0
    requires RepeatChar(Some(motif), m - 1 + n) == RepeatChar(Some(motif), m - 1) + RepeatChar(Some(motif), n)
    ensures RepeatChar(Some(motif), m + n) == RepeatChar(Some(motif), m) + RepeatChar(Some(motif), n)
  {
    RepeatCharUnfold(motif, m + n);
    RepeatCharUnfold(motif, m);
    Regroup(motif, RepeatChar(Some(motif), m - 1), RepeatChar(Some(motif), n));
  }

  /** One repetition of a non-empty motif is peeled off the front. */
  lemma RepeatCharUnfold(motif: string, k: int)
    requires motif != "" && k > 0
    ensures RepeatChar(Some(motif), k) == motif + RepeatChar(Some(motif), k - 1)
  {
  }

  lemma Regroup(a: string, b: string, c: string)
    ensures a + (b + c) == (a + b) + c
  {
  }

  lemma RepeatCharExamples()
    ensures RepeatChar(Some("*"), 4) == "****"
    ensures RepeatChar(Some("a"), 0) == ""
    ensures RepeatChar(Some("ab"), 3) == "ababab"
    ensures RepeatChar(None, 4) == ""
    ensures RepeatChar(Some("*"), -1) == ""
  {
  }

  /** The sum of the numbers of a value, at any depth. */
  function Total(v: Value): real
    decreases v, 1
  {
    match v
    case Number(n) => n
    case Array(items) => TotalOf(items)
    case _ => 0.0
  }

  function TotalOf(items: seq<Value>): real
    decreases items, 0
  {
    if items == [] then 0.0 else Total(items[0]) + TotalOf(items[1..])
  }

  /** The non-array values of `v`, left to right, at any depth. */
  function Leaves(v: Value): (r: seq<Value>)
    ensures forall i :: 0 <= i < |r| ==> !r[i].Array?
    decreases v, 1
  {
    match v
    case Array(items) => LeavesOf(items)
    case _ => [v]
  }

  function LeavesOf(items: seq<Value>): (r: seq<Value>)
    ensures forall i :: 0 <= i < |r| ==> !r[i].Array?
    decreases items, 0
  {
    if items == [] then [] else Leaves(items[0]) + LeavesOf(items[1..])
  }

  /** Every number at any depth added up; non-numbers are skipped and a
      non-array is 0. */
  function SumNestedArray(arr: Value): (r: real)
    ensures !arr.Array? ==> r == 0.0
    ensures arr.Array? ==> r == SumNumbers(FlattenArray(arr))
  {
    match arr
    case Array(items) => TotalOfFlat(items); TotalOf(items)
    case _ => 0.0
  }

  /** All leaves of an array in left-to-right order, with no array left among
      them; [] for a non-array. */
  function FlattenArray(arr: Value): (r: seq<Value>)
    ensures !arr.Array? ==> r == []
    ensures forall i :: 0 <= i < |r| ==> !r[i].Array?
  {
    match arr
    case Array(items) => LeavesOf(items)
    case _ => []
  }

  /** The sum of the numbers in a flat list. */
  function SumNumbers(vs: seq<Value>): real {
    if vs == [] then 0.0 else (if vs[0].Number? then vs[0].n else 0.0) + SumNumbers(vs[1..])
  }

  lemma {:induction false} SumNumbersAppend(a: seq<Value>, b: seq<Value>)
    ensures SumNumbers(a + b) == SumNumbers(a) + SumNumbers(b)
  {
    if a == [] {
      assert a + b == b;
    } else {
      assert (a + b)[1..] == a[1..] + b;
      SumNumbersAppend(a[1..], b);
    }
  }

  /** Summing in place and summing the flattened list agree. */
  lemma {:induction false} TotalOfFlat(items: seq<Value>)
    ensures TotalOf(items) == SumNumbers(LeavesOf(items))
    decreases items, 0
  {
    if items != [] {
      TotalFlat(items[0]);
      TotalOfFlat(items[1..]);
      SumNumbersAppend(Leaves(items[0]), LeavesOf(items[1..]));
    }
  }

  lemma {:induction false} TotalFlat(v: Value)
    ensures Total(v) == SumNumbers(Leaves(v))
    decreases v, 1
  {
    match v
    case Array(items) => TotalOfFlat(items);
    case _ => assert Leaves(v)[1..] == [];
  }

  /** A flat array flattens to itself. */
  lemma {:induction false} FlattenFlat(items: seq<Value>)
    requires forall i :: 0 <= i < |items| ==> !items[i].Array?
    ensures FlattenArray(Array(items)) == items
  {
    if items != [] {
      FlattenFlat(items[1..]);
      assert Leaves(items[0]) == [items[0]];
      assert LeavesOf(items) == [items[0]] + LeavesOf(items[1..]);
      assert [items[0]] + items[1..] == items;
    }
  }

  /** Flattening twice is flattening once. */
  lemma FlattenIdempotent(arr: Value)
    ensures FlattenArray(Array(FlattenArray(arr))) == FlattenArray(arr)
  {
    FlattenFlat(FlattenArray(arr));
  }

  /** The leaves of two lists of items side by side are the leaves of the
      first followed by those of the second. */
  lemma {:induction false} LeavesOfAppend(a: seq<Value>, b: seq<Value>)
    ensures LeavesOf(a + b) == LeavesOf(a) + LeavesOf(b)
  {
    if a == [] {
      assert a + b == b;
    } else {
      assert (a + b)[0] == a[0] && (a + b)[1..] == a[1..] + b;
      LeavesOfAppend(a[1..], b);
    }
  }

  /** One item contributes itself when it is not an array, and its own leaves
      when it is. */
  lemma LeavesOfSingle(v: Value)
    ensures LeavesOf([v]) == (if v.Array? then LeavesOf(v.items) else [v])
  {
    assert [v][1..] == [];
  }

  /** Flattening keeps every leaf in left-to-right order: it splits over
      concatenation, keeps a non-array item as it is and opens an array item
      in place. Together these determine the result for every array. */
  lemma FlattenArrayLaws(a: seq<Value>, b: seq<Value>, v: Value)
    ensures FlattenArray(Array(a + b)) == FlattenArray(Array(a)) + FlattenArray(Array(b))
    ensures FlattenArray(Array([v])) == (if v.Array? then FlattenArray(v) else [v])
  {
    LeavesOfAppend(a, b);
    LeavesOfSingle(v);
  }

  /** [1, [2, [3, 4]], 5] */
  function Sample(): Value {
    Array([Number(1.0), Array([Number(2.0), Array([Number(3.0), Number(4.0)])]), Number(5.0)])
  }

  lemma SumNestedArrayExample()
    ensures SumNestedArray(Sample()) == 15.0
  {
    assert TotalOf([Number(3.0), Number(4.0)]) == 7.0;
    assert TotalOf([Number(2.0), Array([Number(3.0), Number(4.0)])]) == 9.0;
  }

  lemma SumNestedArraySkipsText()
    ensures SumNestedArray(Array([Number(1.0), Str("two"), Array([Number(3.0)])])) == 4.0
  {
    assert TotalOf([Array([Number(3.0)])]) == 3.0;
  }

  lemma SumNestedArrayDeep()
    ensures SumNestedArray(Array([Array([Array([Array([Array([Number(10.0)])])])])])) == 10.0
  {
    var v1 := Array([Number(10.0)]);
    TotalOfSingle(Number(10.0));
    var v2 := Array([v1]);
    TotalOfSingle(v1);
    var v3 := Array([v2]);
    TotalOfSingle(v2);
    var v4 := Array([v3]);
    TotalOfSingle(v3);
    TotalOfSingle(v4);
  }

  /** Any JavaScript number is summed, not only whole ones. */
  lemma SumNestedArrayFraction()
    ensures SumNestedArray(Array([Number(1.5), Array([Number(2.0)])])) == 3.5
  {
    TotalOfSingle(Number(2.0));
  }

  lemma TotalOfSingle(v: Value)
    ensures TotalOf([v]) == Total(v)
  {
    assert [v][1..] == [];
  }

  lemma SumNestedArrayEdges()
    ensures SumNestedArray(Array([])) == 0.0
    ensures SumNestedArray(Str("hello")) == 0.0 && SumNestedArray(Number(42.0)) == 0.0 && SumNestedArray(Other) == 0.0
  {
  }

  lemma FlattenSampleExample()
    ensures FlattenArray(Sample()) == [Number(1.0), Number(2.0), Number(3.0), Number(4.0), Number(5.0)]
  {
    var inner := [Number(3.0), Number(4.0)];
    assert LeavesOf(inner) == [Number(3.0)] + LeavesOf([Number(4.0)]);
    assert LeavesOf(inner) == [Number(3.0), Number(4.0)];
    var middle := [Number(2.0), Array(inner)];
    assert LeavesOf(middle) == [Number(2.0)] + LeavesOf([Array(inner)]);
    assert LeavesOf(middle) == [Number(2.0), Number(3.0), Number(4.0)];
  }

  lemma FlattenArrayExamples()
    ensures FlattenArray(Array([])) == []
    ensures FlattenArray(Str("hello")) == [] && FlattenArray(Number(42.0)) == [] && FlattenArray(Other) == []
    ensures FlattenArray(Array([Number(1.0), Number(2.0), Number(3.0)])) == [Number(1.0), Number(2.0), Number(3.0)]
    ensures FlattenArray(Array([Array([Array([Array([Str("a")])])])])) == [Str("a")]
  {
  }

  /** First and last characters agree, recursively inwards. */
  predicate Mirrored(t: string)
    decreases |t|
  {
    |t| <= 1 || (t[0] == t[|t| - 1] && Mirrored(t[1..|t| - 1]))
  }

  /** The string reads the same both ways, ignoring the case of letters;
      false for a non-string. */
  function IsPalindrome(str: Option<string>): (r: bool)
    ensures str.None? ==> !r
    ensures str.Some? ==> (r <==> ToLower(str.value) == Reverse(ToLower(str.value)))
  {
    match str
    case None => false
    case Some(s) => MirroredIffReversed(ToLower(s)); Mirrored(ToLower(s))
  }

  /** The recursive comparison of ends is the same as equality with the
      reversed string. */
  lemma {:induction false} MirroredIffReversed(t: string)
    ensures Mirrored(t) <==> t == Reverse(t)
    decreases |t|
  {
    if |t| > 1 {
      var m := t[1..|t| - 1];
      MirroredIffReversed(m);
      ReverseEnds(t);
      EqualByEnds(t, Reverse(t));
    }
  }

  /** Reversing swaps the ends and reverses what lies between them. */
  lemma ReverseEnds(t: string)
    requires |t| > 1
    ensures var rt := Reverse(t);
            rt[0] == t[|t| - 1] && rt[|t| - 1] == t[0] && rt[1..|t| - 1] == Reverse(t[1..|t| - 1])
  {
    var m, last := t[1..|t| - 1], t[|t| - 1];
    TailParts(t);
    Sequences.ReverseSnoc(m, last);
    Framed(last, Reverse(m), t[0]);
  }

  /** The tail of `t` is its inside followed by its last character. */
  lemma TailParts(t: string)
    requires |t| > 1
    ensures t[1..] == t[1..|t| - 1] + [t[|t| - 1]]
  {
  }

  /** The ends and the inside of a sequence framed by two elements. */
  lemma Framed(a: char, m: string, b: char)
    ensures var f := [a] + m + [b];
            |f| == |m| + 2 && f[0] == a && f[|f| - 1] == b && f[1..|f| - 1] == m
  {
    var f := [a] + m + [b];
    assert f[1..|f| - 1] == m;
  }

  /** Two strings of the same length above 1 are equal exactly when their
      ends and their insides are. */
  lemma EqualByEnds(t: string, u: string)
    requires |t| == |u| > 1
    ensures t == u <==> t[0] == u[0] && t[|t| - 1] == u[|t| - 1] && t[1..|t| - 1] == u[1..|t| - 1]
  {
    if t[0] == u[0] && t[|t| - 1] == u[|t| - 1] && t[1..|t| - 1] == u[1..|t| - 1] {
      forall i | 0 <= i < |t| ensures t[i] == u[i] {
        if 0 < i < |t| - 1 { assert t[i] == t[1..|t| - 1][i - 1]; }
      }
    }
  }

  lemma PalindromeMadam()
    ensures IsPalindrome(Some("madam")) && IsPalindrome(Some("Madam"))
  {
    assert ToLower("Madam") == "madam";
    assert ToLower("madam") == "madam";
    assert Mirrored("ada");
  }

  lemma PalindromeRacecar()
    ensures IsPalindrome(Some("racecar"))
  {
    assert ToLower("racecar") == "racecar";
    assert Mirrored("aceca") by { assert Mirrored("cec"); }
  }

  lemma NotPalindromeHello()
    ensures !IsPalindrome(Some("hello"))
  {
    assert ToLower("hello") == "hello";
  }

  lemma PalindromeEdges()
    ensures IsPalindrome(Some("")) && IsPalindrome(Some("a")) && !IsPalindrome(None)
  {
    assert ToLower("a") == "a";
  }

  /** A row of `k` stars. */
  function Stars(k: nat): (r: string)
    ensures |r| == k
  {
    seq(k, _ => '*')
  }

  /** A row of stars is the star motif repeated. */
  lemma {:induction false} StarsRepeat(k: nat)
    ensures Stars(k) == RepeatChar(Some("*"), k)
  {
    if k > 0 {
      StarsRepeat(k - 1);
      assert Stars(k) == "*" + Stars(k - 1);
    }
  }

  /** The rows of 1 to `k` stars. */
  function Ascending(k: nat): (r: seq<string>)
    ensures |r| == k && forall i :: 0 <= i < k ==> r[i] == Stars(i + 1)
  {
    if k == 0 then [] else Ascending(k - 1) + [Stars(k)]
  }

  /** 1 up to `n` stars and back down to 1, so 2n-1 rows; [] when `n` is not
      a positive integer. */
  function GeneratePattern(n: real): (r: seq<string>)
    ensures n <= 0.0 || n != n.Floor as real ==> r == []
    ensures n > 0.0 && n == n.Floor as real ==> |r| == 2 * n.Floor - 1
    ensures forall i :: 0 <= i < |r| ==> r[i] == Stars(if i < |r| - i then i + 1 else |r| - i)
    ensures forall i :: 0 <= i < |r| ==> r[i] == r[|r| - 1 - i]
  {
    if n <= 0.0 || n != n.Floor as real then []
    else
      var k := n.Floor;
      var up := Ascending(k);
      var down := Reverse(Ascending(k - 1));
      up + down
  }

  lemma GeneratePatternExamples()
    ensures GeneratePattern(1.0) == ["*"]
    ensures GeneratePattern(2.0) == ["*", "**", "*"]
    ensures GeneratePattern(0.0) == [] && GeneratePattern(-3.0) == [] && GeneratePattern(2.5) == []
  {
    assert Stars(1) == "*" && Stars(2) == "**";
  }

  lemma GeneratePatternThree()
    ensures GeneratePattern(3.0) == ["*", "**", "***", "**", "*"]
  {
    assert Stars(1) == "*" && Stars(2) == "**" && Stars(3) == "***";
  }
}
