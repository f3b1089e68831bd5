/** Sequence vocabulary shared by the trend analyser and the rolling history:
    taking the last few elements, and being an order-preserving subsequence. */
module Seqs {

  /** The last `n` elements of `xs`, or all of `xs` when it is shorter.
      This is JavaScript's `xs.slice(-n)` for `n > 0`, and the window a
      bounded queue of capacity `n` keeps. */
  function LastN<T>(xs: seq<T>, n: nat): (r: seq<T>)
    ensures |r| == if |xs| < n then |xs| else n
    ensures forall i :: 0 <= i < |r| ==> r[i] == xs[|xs| - |r| + i]
  {
    if |xs| <= n then xs else xs[|xs| - n..]
  }

  /** Taking the last `n` elements never changes the last `k <= n` of them. */
  lemma LastNKeepsTail<T>(xs: seq<T>, n: nat, k: nat)
    requires k <= n && k <= |xs|
    ensures k <= |LastN(xs, n)|
    ensures LastN(xs, n)[|LastN(xs, n)| - k..] == xs[|xs| - k..]
  {
    var r := LastN(xs, n);
    assert |r[|r| - k..]| == |xs[|xs| - k..]|;
    forall j | |r| - k <= j < |r|
      ensures r[j] == xs[|xs| - |r| + j]
    {
    }
  }

  /** `xs` can be obtained from `ys` by deleting elements, keeping the order. */
  predicate IsSubsequence<T(==)>(xs: seq<T>, ys: seq<T>)
    decreases |ys|
  {
    if |xs| == 0 then true
    else if |ys| == 0 then false
    else if xs[0] == ys[0] then IsSubsequence(xs[1..], ys[1..])
    else IsSubsequence(xs, ys[1..])
  }

  predicate NoDuplicates<T(==)>(xs: seq<T>)
  {
    forall i, j :: 0 <= i < j < |xs| ==> xs[i] != xs[j]
  }

  /** Every element of a subsequence occurs in the original, and a
      subsequence is never longer than the original. */
  lemma {:induction false} SubsequenceElements<T>(xs: seq<T>, ys: seq<T>)
    requires IsSubsequence(xs, ys)
    ensures |xs| <= |ys|
    ensures forall x :: x in xs ==> x in ys
    decreases |ys|
  {
    if |xs| == 0 {
    } else if xs[0] == ys[0] {
      SubsequenceElements(xs[1..], ys[1..]);
      forall x | x in xs ensures x in ys {
        if x != xs[0] {
          assert x in xs[1..];
          assert x in ys[1..];
        }
      }
    } else {
      SubsequenceElements(xs, ys[1..]);
    }
  }

  /** A subsequence of a duplicate-free sequence is duplicate-free. */
  lemma {:induction false} SubsequenceKeepsNoDuplicates<T>(xs: seq<T>, ys: seq<T>)
    requires IsSubsequence(xs, ys) && NoDuplicates(ys)
    ensures NoDuplicates(xs)
    ensures |xs| <= |ys|
    decreases |ys|
  {
    SubsequenceElements(xs, ys);
    if |xs| == 0 {
    } else if xs[0] == ys[0] {
      var tail := ys[1..];
      assert NoDuplicates(tail) by {
        forall i, j | 0 <= i < j < |tail| ensures tail[i] != tail[j] {
          assert tail[i] == ys[i + 1] && tail[j] == ys[j + 1];
        }
      }
      SubsequenceKeepsNoDuplicates(xs[1..], tail);
      SubsequenceElements(xs[1..], tail);
      assert xs[0] !in tail by {
        forall j | 0 <= j < |tail| ensures tail[j] != ys[0] {
          assert tail[j] == ys[j + 1];
        }
      }
      forall i, j | 0 <= i < j < |xs| ensures xs[i] != xs[j] {
        assert xs[j] == xs[1..][j - 1];
        assert xs[j] in tail;
        if i > 0 {
          assert xs[i] == xs[1..][i - 1];
        }
      }
    } else {
      var tail := ys[1..];
      assert NoDuplicates(tail) by {
        forall i, j | 0 <= i < j < |tail| ensures tail[i] != tail[j] {
          assert tail[i] == ys[i + 1] && tail[j] == ys[j + 1];
        }
      }
      SubsequenceKeepsNoDuplicates(xs, tail);
    }
  }
}
