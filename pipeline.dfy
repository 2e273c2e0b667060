/** Running a list of functions over a value, first function first (a left
    fold of application, as in `fns.reduce((acc, fn) => fn(acc), x)`) or last
    function first (`reduceRight`). */
module Pipeline {
  import Sequences

  function ApplyLeft<A>(fs: seq<A -> A>, x: A): A
    decreases |fs|
  {
    if fs == [] then x else ApplyLeft(fs[1..], fs[0](x))
  }

  function ApplyRight<A>(fs: seq<A -> A>, x: A): A
    decreases |fs|
  {
    if fs == [] then x else fs[0](ApplyRight(fs[1..], x))
  }

  /** Running `fs` and then `gs` is running `fs + gs`. */
  lemma {:induction false} ApplyLeftAppend<A>(fs: seq<A -> A>, gs: seq<A -> A>, x: A)
    ensures ApplyLeft(fs + gs, x) == ApplyLeft(gs, ApplyLeft(fs, x))
  {
    if fs == [] {
      assert fs + gs == gs;
    } else {
      assert (fs + gs)[1..] == fs[1..] + gs;
      ApplyLeftAppend(fs[1..], gs, fs[0](x));
    }
  }

  /** The last function runs last. */
  lemma ApplyLeftLast<A>(fs: seq<A -> A>, f: A -> A, x: A)
    ensures ApplyLeft(fs + [f], x) == f(ApplyLeft(fs, x))
  {
    ApplyLeftAppend(fs, [f], x);
  }

  /** Right-to-left application is left-to-right application of the
      reversed list. */
  lemma {:induction false} ApplyRightIsReversedLeft<A>(fs: seq<A -> A>, x: A)
    ensures ApplyRight(fs, x) == ApplyLeft(Sequences.Reverse(fs), x)
  {
    if fs != [] {
      ApplyRightIsReversedLeft(fs[1..], x);
      assert Sequences.Reverse(fs) == Sequences.Reverse(fs[1..]) + [fs[0]];
      ApplyLeftLast(Sequences.Reverse(fs[1..]), fs[0], x);
    }
  }
}
