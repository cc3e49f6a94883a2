/** Lists of which some elements were dropped. */
module Subsequences {
  import opened ByteCounts

  /** `xs` is what remains of `ys` after dropping some elements. */
  predicate IsSubsequence<T(==)>(xs: seq<T>, ys: seq<T>) {
    if |xs| == 0 then true
    else if |ys| == 0 then false
    else if IsSubsequence(xs, ys[..|ys| - 1]) then true
    else xs[|xs| - 1] == ys[|ys| - 1] && IsSubsequence(xs[..|xs| - 1], ys[..|ys| - 1])
  }

  lemma Dropped<T>(xs: seq<T>, ys: seq<T>, y: T)
    requires IsSubsequence(xs, ys)
    ensures IsSubsequence(xs, ys + [y])
  {
    assert (ys + [y])[..|ys|] == ys;
  }

  lemma Kept<T>(xs: seq<T>, ys: seq<T>, y: T)
    requires IsSubsequence(xs, ys)
    ensures IsSubsequence(xs + [y], ys + [y])
  {
    assert (ys + [y])[..|ys|] == ys && (xs + [y])[..|xs|] == xs;
  }

  lemma {:induction false} TotalOfFewer<T>(xs: seq<seq<T>>, ys: seq<seq<T>>)
    requires IsSubsequence(xs, ys)
    ensures Total(xs) <= Total(ys)
    decreases |ys|
  {
    if |xs| > 0 {
      if IsSubsequence(xs, ys[..|ys| - 1]) {
        TotalOfFewer(xs, ys[..|ys| - 1]);
      } else {
        TotalOfFewer(xs[..|xs| - 1], ys[..|ys| - 1]);
      }
    }
  }
}
