/** Order-preserving selections from a sequence. */
module Subsequences {

  /** `xs` is `ys` with some elements left out, the rest in their order. */
  ghost predicate SubsequenceOf<T>(xs: seq<T>, ys: seq<T>)
    decreases |ys|
  {
    if ys == [] then xs == []
    else (xs != [] && xs[0] == ys[0] && SubsequenceOf(xs[1..], ys[1..])) || SubsequenceOf(xs, ys[1..])
  }

  lemma {:induction false} SubsequenceLength<T>(xs: seq<T>, ys: seq<T>)
    requires SubsequenceOf(xs, ys)
    ensures |xs| <= |ys|
    decreases |ys|
  {
    if ys != [] {
      if xs != [] && xs[0] == ys[0] && SubsequenceOf(xs[1..], ys[1..]) {
        SubsequenceLength(xs[1..], ys[1..]);
      } else {
        SubsequenceLength(xs, ys[1..]);
      }
    }
  }

  lemma {:induction false} SubsequenceMembers<T>(xs: seq<T>, ys: seq<T>)
    requires SubsequenceOf(xs, ys)
    ensures forall x :: x in xs ==> x in ys
    decreases |ys|
  {
    if ys != [] {
      if xs != [] && xs[0] == ys[0] && SubsequenceOf(xs[1..], ys[1..]) {
        SubsequenceMembers(xs[1..], ys[1..]);
        assert xs == [xs[0]] + xs[1..];
      } else {
        SubsequenceMembers(xs, ys[1..]);
      }
    }
  }

  /** Keeping or dropping the head of `ys` in front of a subsequence of its
      tail gives a subsequence of `ys`. */
  lemma SubsequencePrepend<T>(ys: seq<T>, keep: bool, rest: seq<T>)
    requires ys != [] && SubsequenceOf(rest, ys[1..])
    ensures SubsequenceOf(if keep then [ys[0]] + rest else rest, ys)
  {
    if keep {
      var xs := [ys[0]] + rest;
      assert xs[0] == ys[0] && xs[1..] == rest;
    }
  }

  /** Element counts of a sequence split at its head. */
  lemma CountsOfHead<T>(ys: seq<T>)
    requires ys != []
    ensures multiset(ys) == multiset{ys[0]} + multiset(ys[1..])
  {
    assert ys == [ys[0]] + ys[1..];
  }
}
