/**
 * Sums and filters over sequences: the `reduce((s, x) => s + f(x), 0)` and
 * `filter(pred)` idioms the source uses everywhere, with the algebra the
 * ledger proofs rely on.
 */
module Sums {

  /** Sum of `f` over `xs`, taken left to right. */
  function SumOf<T>(xs: seq<T>, f: T -> int): int
    decreases |xs|
  {
    if |xs| == 0 then 0 else f(xs[0]) + SumOf(xs[1..], f)
  }

  lemma {:induction false} SumAppend<T>(xs: seq<T>, ys: seq<T>, f: T -> int)
    ensures SumOf(xs + ys, f) == SumOf(xs, f) + SumOf(ys, f)
    decreases |xs|
  {
    if |xs| == 0 {
      assert xs + ys == ys;
    } else {
      assert (xs + ys)[1..] == xs[1..] + ys;
      SumAppend(xs[1..], ys, f);
    }
  }

  lemma {:induction false} SumCongruent<T>(xs: seq<T>, f: T -> int, g: T -> int)
    requires forall i :: 0 <= i < |xs| ==> f(xs[i]) == g(xs[i])
    ensures SumOf(xs, f) == SumOf(xs, g)
    decreases |xs|
  {
    if |xs| > 0 {
      SumCongruent(xs[1..], f, g);
    }
  }

  lemma {:induction false} SumZero<T>(xs: seq<T>, f: T -> int)
    requires forall i :: 0 <= i < |xs| ==> f(xs[i]) == 0
    ensures SumOf(xs, f) == 0
    decreases |xs|
  {
    if |xs| > 0 {
      SumZero(xs[1..], f);
    }
  }

  /** Sums are additive: if `h == f + g` on every element, so are their sums. */
  lemma {:induction false} SumAdd<T>(xs: seq<T>, f: T -> int, g: T -> int, h: T -> int)
    requires forall i :: 0 <= i < |xs| ==> h(xs[i]) == f(xs[i]) + g(xs[i])
    ensures SumOf(xs, h) == SumOf(xs, f) + SumOf(xs, g)
    decreases |xs|
  {
    if |xs| > 0 {
      SumAdd(xs[1..], f, g, h);
    }
  }

  lemma {:induction false} SumNegate<T>(xs: seq<T>, f: T -> int, g: T -> int)
    requires forall i :: 0 <= i < |xs| ==> g(xs[i]) == -f(xs[i])
    ensures SumOf(xs, g) == -SumOf(xs, f)
    decreases |xs|
  {
    if |xs| > 0 {
      SumNegate(xs[1..], f, g);
    }
  }

  lemma {:induction false} SumMonotone<T>(xs: seq<T>, f: T -> int, g: T -> int)
    requires forall i :: 0 <= i < |xs| ==> f(xs[i]) <= g(xs[i])
    ensures SumOf(xs, f) <= SumOf(xs, g)
    decreases |xs|
  {
    if |xs| > 0 {
      SumMonotone(xs[1..], f, g);
    }
  }

  lemma {:induction false} SumNonnegative<T>(xs: seq<T>, f: T -> int)
    requires forall i :: 0 <= i < |xs| ==> 0 <= f(xs[i])
    ensures 0 <= SumOf(xs, f)
    decreases |xs|
  {
    if |xs| > 0 {
      SumNonnegative(xs[1..], f);
    }
  }

  /** `f` with its first argument fixed. */
  function FixFirst<A, B>(f: (A, B) -> int, a: A): B -> int {
    b => f(a, b)
  }

  /** `f` with its second argument fixed. */
  function FixSecond<A, B>(f: (A, B) -> int, b: B): A -> int {
    a => f(a, b)
  }

  /** For each `a`, the sum of `f(a, b)` over `bs`. */
  function RowTotals<A, B>(f: (A, B) -> int, bs: seq<B>): A -> int {
    a => SumOf(bs, FixFirst(f, a))
  }

  /** For each `b`, the sum of `f(a, b)` over `xs`. */
  function ColumnTotals<A, B>(f: (A, B) -> int, xs: seq<A>): B -> int {
    b => SumOf(xs, FixSecond(f, b))
  }

  /** A double sum may be taken in either order. */
  lemma {:induction false} SumSwap<A, B>(xs: seq<A>, bs: seq<B>, f: (A, B) -> int)
    ensures SumOf(xs, RowTotals(f, bs)) == SumOf(bs, ColumnTotals(f, xs))
    decreases |xs|
  {
    if |xs| == 0 {
      forall j | 0 <= j < |bs|
        ensures ColumnTotals(f, xs)(bs[j]) == 0
      {
      }
      SumZero(bs, ColumnTotals(f, xs));
    } else {
      SumSwap(xs[1..], bs, f);
      forall j | 0 <= j < |bs|
        ensures ColumnTotals(f, xs)(bs[j])
             == FixFirst(f, xs[0])(bs[j]) + ColumnTotals(f, xs[1..])(bs[j])
      {
      }
      SumAdd(bs, FixFirst(f, xs[0]), ColumnTotals(f, xs[1..]), ColumnTotals(f, xs));
    }
  }

  /** The elements of `xs` satisfying `keep`, in order. */
  function Filter<T>(xs: seq<T>, keep: T -> bool): (r: seq<T>)
    ensures |r| <= |xs|
    ensures forall i :: 0 <= i < |r| ==> keep(r[i])
    decreases |xs|
  {
    if |xs| == 0 then []
    else if keep(xs[0]) then [xs[0]] + Filter(xs[1..], keep)
    else Filter(xs[1..], keep)
  }

  /** Filtering keeps exactly the elements that satisfy the predicate. */
  lemma {:induction false} FilterMembership<T>(xs: seq<T>, keep: T -> bool, x: T)
    ensures x in Filter(xs, keep) <==> x in xs && keep(x)
    decreases |xs|
  {
    if |xs| > 0 {
      FilterMembership(xs[1..], keep, x);
      assert xs == [xs[0]] + xs[1..];
    }
  }

  /** Filtering with a predicate every element satisfies changes nothing. */
  lemma {:induction false} FilterAllKept<T>(xs: seq<T>, keep: T -> bool)
    requires forall i :: 0 <= i < |xs| ==> keep(xs[i])
    ensures Filter(xs, keep) == xs
    decreases |xs|
  {
    if |xs| > 0 {
      FilterAllKept(xs[1..], keep);
      assert xs == [xs[0]] + xs[1..];
    }
  }

  /** Filtering with a predicate no element satisfies leaves nothing. */
  lemma {:induction false} FilterAllDropped<T>(xs: seq<T>, keep: T -> bool)
    requires forall i :: 0 <= i < |xs| ==> !keep(xs[i])
    ensures Filter(xs, keep) == []
    decreases |xs|
  {
    if |xs| > 0 {
      FilterAllDropped(xs[1..], keep);
    }
  }

  /** `f` where `keep` holds, 0 elsewhere. */
  function Masked<T>(keep: T -> bool, f: T -> int): T -> int {
    (x: T) => if keep(x) then f(x) else 0
  }

  /** Summing over the kept elements is summing the masked function over all of them. */
  lemma {:induction false} SumFilter<T>(xs: seq<T>, keep: T -> bool, f: T -> int)
    ensures SumOf(Filter(xs, keep), f) == SumOf(xs, Masked(keep, f))
    decreases |xs|
  {
    if |xs| > 0 {
      SumFilter(xs[1..], keep, f);
      if keep(xs[0]) {
        SumAppend([xs[0]], Filter(xs[1..], keep), f);
      }
    }
  }

  /** 1 where `keep` holds, 0 elsewhere. */
  function Indicator<T>(keep: T -> bool): T -> int {
    (x: T) => if keep(x) then 1 else 0
  }

  /** The length of a filter counts the elements that satisfy the predicate. */
  lemma {:induction false} FilterCount<T>(xs: seq<T>, keep: T -> bool)
    ensures |Filter(xs, keep)| == SumOf(xs, Indicator(keep))
    decreases |xs|
  {
    if |xs| > 0 {
      FilterCount(xs[1..], keep);
    }
  }

  /** Two sums agree when their terms agree position by position, even over different sequences. */
  lemma {:induction false} SumPointwise<A, B>(xs: seq<A>, f: A -> int, ys: seq<B>, g: B -> int)
    requires |xs| == |ys|
    requires forall i :: 0 <= i < |xs| ==> f(xs[i]) == g(ys[i])
    ensures SumOf(xs, f) == SumOf(ys, g)
    decreases |xs|
  {
    if |xs| > 0 {
      SumPointwise(xs[1..], f, ys[1..], g);
    }
  }

  /** Replacing one element changes the sum by the change in that element's term. */
  lemma {:induction false} SumUpdate<T>(xs: seq<T>, k: int, v: T, f: T -> int)
    requires 0 <= k < |xs|
    ensures SumOf(xs[k := v], f) == SumOf(xs, f) - f(xs[k]) + f(v)
    decreases |xs|
  {
    if k > 0 {
      SumUpdate(xs[1..], k - 1, v, f);
      assert xs[k := v][1..] == xs[1..][k - 1 := v];
    } else {
      assert xs[k := v][1..] == xs[1..];
    }
  }

  /** Filtering distributes over concatenation. */
  lemma {:induction false} FilterAppend<T>(xs: seq<T>, ys: seq<T>, keep: T -> bool)
    ensures Filter(xs + ys, keep) == Filter(xs, keep) + Filter(ys, keep)
    decreases |xs|
  {
    if |xs| > 0 {
      FilterAppend(xs[1..], ys, keep);
      assert (xs + ys)[1..] == xs[1..] + ys;
    } else {
      assert xs + ys == ys;
    }
  }

  /** Filtering out exactly one element between two runs that are kept removes just that element. */
  lemma FilterDropsOne<T>(before: seq<T>, x: T, after: seq<T>, keep: T -> bool)
    requires forall i :: 0 <= i < |before| ==> keep(before[i])
    requires forall i :: 0 <= i < |after| ==> keep(after[i])
    requires !keep(x)
    ensures Filter(before + [x] + after, keep) == before + after
  {
    FilterAllKept(before, keep);
    FilterAllKept(after, keep);
    assert Filter([x], keep) == [] by {
      assert [x][1..] == [];
    }
    FilterAppend(before, [x], keep);
    assert Filter(before + [x], keep) == before;
    FilterAppend(before + [x], after, keep);
  }

  /**
   * The positions of the elements `keep` accepts, in increasing order: every
   * listed position holds a kept element and every kept element's position
   * is listed.
   */
  function KeptIndices<T>(xs: seq<T>, keep: T -> bool): (r: seq<int>)
    ensures forall i :: 0 <= i < |r| ==> 0 <= r[i] < |xs| && keep(xs[r[i]])
    ensures forall i, j :: 0 <= i < j < |r| ==> r[i] < r[j]
    ensures forall a :: 0 <= a < |xs| && keep(xs[a]) ==> a in r
    decreases |xs|
  {
    if |xs| == 0 then []
    else
      var init := xs[..|xs| - 1];
      assert forall a :: 0 <= a < |init| ==> init[a] == xs[a];
      KeptIndices(init, keep) + (if keep(xs[|xs| - 1]) then [|xs| - 1] else [])
  }

  /** `filter` keeps exactly the elements at the kept positions, in the order of those positions. */
  lemma {:induction false} FilterAtKeptIndices<T>(xs: seq<T>, keep: T -> bool)
    ensures |Filter(xs, keep)| == |KeptIndices(xs, keep)|
    ensures forall i :: 0 <= i < |Filter(xs, keep)| ==> Filter(xs, keep)[i] == xs[KeptIndices(xs, keep)[i]]
    decreases |xs|
  {
    if |xs| > 0 {
      var init, last := xs[..|xs| - 1], xs[|xs| - 1];
      var f, k := Filter(init, keep), KeptIndices(init, keep);
      FilterAtKeptIndices(init, keep);
      var tail := if keep(last) then [last] else [];
      assert Filter(xs, keep) == f + tail by {
        assert xs == init + [last];
        FilterAppend(init, [last], keep);
        assert [last][1..] == [];
      }
      assert KeptIndices(xs, keep) == k + (if keep(last) then [|xs| - 1] else []);
      forall i | 0 <= i < |f| ensures Filter(xs, keep)[i] == xs[KeptIndices(xs, keep)[i]] {
        assert Filter(xs, keep)[i] == f[i] && KeptIndices(xs, keep)[i] == k[i];
        assert init[k[i]] == xs[k[i]];
      }
    }
  }
}
