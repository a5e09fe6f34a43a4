/**
 Order-preserving filtering of a sequence, the list comprehension
 `[x for x in xs if keep(x)]`, and the facts that pin it down.
 */
module Seqs {

  function Filter<T>(xs: seq<T>, keep: T -> bool): (ys: seq<T>)
    ensures |ys| <= |xs|
    ensures forall i :: 0 <= i < |ys| ==> keep(ys[i])
    decreases |xs|
  {
    if xs == [] then []
    else if keep(xs[0]) then [xs[0]] + Filter(xs[1..], keep)
    else Filter(xs[1..], keep)
  }

  /** Filtering distributes over concatenation. */
  lemma {:induction false} FilterAppend<T>(a: seq<T>, b: seq<T>, keep: T -> bool)
    ensures Filter(a + b, keep) == Filter(a, keep) + Filter(b, keep)
    decreases |a|
  {
    if a == [] {
      assert a + b == b;
    } else {
      assert (a + b)[0] == a[0];
      assert (a + b)[1..] == a[1..] + b;
      FilterAppend(a[1..], b, keep);
    }
  }

  /** A single element stays exactly when it is kept. */
  lemma FilterSingle<T>(x: T, keep: T -> bool)
    ensures Filter([x], keep) == if keep(x) then [x] else []
  {
    assert [x][1..] == [];
  }

  /** Where the element at index `i` lands in the filtered sequence. */
  function Rank<T>(xs: seq<T>, i: nat, keep: T -> bool): nat
    requires i <= |xs|
  {
    |Filter(xs[..i], keep)|
  }

  /** Every kept element survives, unchanged, at its rank, and a kept
      element ranks strictly before every later element: the survivors
      keep their relative order. */
  lemma KeptInOrder<T>(xs: seq<T>, i: nat, j: nat, keep: T -> bool)
    requires i < j <= |xs|
    requires keep(xs[i])
    ensures Rank(xs, i, keep) < Rank(xs, j, keep) <= |Filter(xs, keep)|
    ensures Filter(xs, keep)[Rank(xs, i, keep)] == xs[i]
  {
    var head, mid, tail := xs[..i], xs[i + 1..j], xs[j..];
    var a, m, b := Filter(head, keep), Filter(mid, keep), Filter(tail, keep);
    FilterSingle(xs[i], keep);
    assert xs[..j] == head + [xs[i]] + mid;
    FilterAppend(head, [xs[i]], keep);
    FilterAppend(head + [xs[i]], mid, keep);
    assert Filter(xs[..j], keep) == a + [xs[i]] + m;
    assert xs == xs[..j] + tail;
    FilterAppend(xs[..j], tail, keep);
    assert Filter(xs, keep) == a + [xs[i]] + m + b;
  }

  /** Every element of the result comes from the input, at a rank that
      matches its position. */
  lemma {:induction false} FilterFromInput<T>(xs: seq<T>, k: nat, keep: T -> bool)
    requires k < |Filter(xs, keep)|
    ensures exists i ::
              && 0 <= i < |xs| && keep(xs[i])
              && Rank(xs, i, keep) == k && Filter(xs, keep)[k] == xs[i]
    decreases |xs|
  {
    var n := |xs| - 1;
    assert xs == xs[..n] + [xs[n]];
    FilterAppend(xs[..n], [xs[n]], keep);
    FilterSingle(xs[n], keep);
    if k < |Filter(xs[..n], keep)| {
      FilterFromInput(xs[..n], k, keep);
      var i :| 0 <= i < n && keep(xs[..n][i]) && Rank(xs[..n], i, keep) == k
        && Filter(xs[..n], keep)[k] == xs[..n][i];
      assert xs[..n][..i] == xs[..i];
    } else {
      assert Rank(xs, n, keep) == k;
    }
  }

  /** A sequence whose every element is kept is its own filter. */
  lemma {:induction false} FilterAllKept<T>(xs: seq<T>, keep: T -> bool)
    requires forall i :: 0 <= i < |xs| ==> keep(xs[i])
    ensures Filter(xs, keep) == xs
    decreases |xs|
  {
    if xs != [] {
      FilterAllKept(xs[1..], keep);
    }
  }
}
