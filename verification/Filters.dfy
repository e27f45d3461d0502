/** Filtering sequences, and their tails. */
module Filters {

  function Filter<T>(xs: seq<T>, keep: T -> bool): seq<T> {
    if xs == [] then []
    else Filter(xs[..|xs| - 1], keep) + (if keep(xs[|xs| - 1]) then [xs[|xs| - 1]] else [])
  }

  /** The last n elements, or all of them when there are fewer. */
  function Last<T>(xs: seq<T>, n: nat): seq<T> {
    if |xs| <= n then xs else xs[|xs| - n..]
  }

  lemma {:induction false} FilterAppend<T>(xs: seq<T>, ys: seq<T>, keep: T -> bool)
    ensures Filter(xs + ys, keep) == Filter(xs, keep) + Filter(ys, keep)
    decreases |ys|
  {
    if ys == [] {
      assert xs + ys == xs;
    } else {
      var init := ys[..|ys| - 1];
      FilterAppend(xs, init, keep);
      assert (xs + ys)[..|xs + ys| - 1] == xs + init;
    }
  }

  lemma FilterOne<T>(x: T, keep: T -> bool)
    ensures Filter([x], keep) == if keep(x) then [x] else []
  {
    assert Filter([x][..0], keep) == [];
  }

  lemma FilterAround<T>(a: seq<T>, x: T, b: seq<T>, keep: T -> bool)
    ensures Filter(a + [x] + b, keep) == Filter(a, keep) + (if keep(x) then [x] else []) + Filter(b, keep)
    ensures Filter(a + b, keep) == Filter(a, keep) + Filter(b, keep)
  {
    FilterAppend(a + [x], b, keep);
    FilterAppend(a, [x], keep);
    FilterAppend(a, b, keep);
    FilterOne(x, keep);
  }

  /** Filtering by one condition after a weaker one is filtering by it. */
  lemma {:induction false} FilterTwice<T>(xs: seq<T>, weak: T -> bool, strong: T -> bool)
    requires forall x :: x in xs && strong(x) ==> weak(x)
    ensures Filter(Filter(xs, weak), strong) == Filter(xs, strong)
    decreases |xs|
  {
    if xs != [] {
      var init, x := xs[..|xs| - 1], xs[|xs| - 1];
      FilterTwice(init, weak, strong);
      FilterAppend(Filter(init, weak), if weak(x) then [x] else [], strong);
      FilterOne(x, strong);
    }
  }

  /** Filters commute. */
  lemma {:induction false} FilterSwap<T>(xs: seq<T>, p: T -> bool, q: T -> bool)
    ensures Filter(Filter(xs, p), q) == Filter(Filter(xs, q), p)
    decreases |xs|
  {
    if xs != [] {
      var init, x := xs[..|xs| - 1], xs[|xs| - 1];
      FilterSwap(init, p, q);
      FilterAppend(Filter(init, p), if p(x) then [x] else [], q);
      FilterAppend(Filter(init, q), if q(x) then [x] else [], p);
      FilterOne(x, p);
      FilterOne(x, q);
    }
  }

  lemma {:induction false} FilterAll<T>(xs: seq<T>, keep: T -> bool)
    requires forall x :: x in xs ==> keep(x)
    ensures Filter(xs, keep) == xs
    decreases |xs|
  {
    if xs != [] {
      FilterAll(xs[..|xs| - 1], keep);
    }
  }

  lemma {:induction false} FilterNone<T>(xs: seq<T>, keep: T -> bool)
    requires forall x :: x in xs ==> !keep(x)
    ensures Filter(xs, keep) == []
    decreases |xs|
  {
    if xs != [] {
      FilterNone(xs[..|xs| - 1], keep);
    }
  }

  lemma {:induction false} FilterMembers<T>(xs: seq<T>, keep: T -> bool)
    ensures forall x :: x in Filter(xs, keep) <==> x in xs && keep(x)
    ensures |Filter(xs, keep)| <= |xs|
    decreases |xs|
  {
    if xs != [] {
      var init, x := xs[..|xs| - 1], xs[|xs| - 1];
      FilterMembers(init, keep);
      assert xs == init + [x];
    }
  }

  /** A condition that, once true, stays true along the sequence keeps a tail of it. */
  lemma {:induction false} FilterTail<T>(xs: seq<T>, keep: T -> bool)
    requires forall i, j :: 0 <= i < j < |xs| && keep(xs[i]) ==> keep(xs[j])
    ensures |Filter(xs, keep)| <= |xs| && Filter(xs, keep) == Last(xs, |Filter(xs, keep)|)
    decreases |xs|
  {
    if xs != [] {
      var init, x := xs[..|xs| - 1], xs[|xs| - 1];
      if keep(x) {
        FilterTail(init, keep);
        assert xs == init + [x];
      } else {
        FilterNone(xs, keep);
      }
    }
  }

  /** Only such a condition keeps a tail. */
  lemma TailOnlyIf<T>(xs: seq<T>, keep: T -> bool)
    requires |Filter(xs, keep)| <= |xs| && Filter(xs, keep) == Last(xs, |Filter(xs, keep)|)
    ensures forall i, j :: 0 <= i < j < |xs| && keep(xs[i]) ==> keep(xs[j])
  {
    var n := |xs| - |Filter(xs, keep)|;
    var dropped, tail := xs[..n], xs[n..];
    assert xs == dropped + tail && tail == Filter(xs, keep);
    FilterMembers(xs, keep);
    FilterAll(tail, keep);
    FilterAppend(dropped, tail, keep);
    FilterMembers(dropped, keep);
    forall i, j | 0 <= i < j < |xs| && keep(xs[i]) ensures keep(xs[j]) {
      assert xs[i] in dropped || i >= n;
      assert xs[j] in tail;
    }
  }

  /** Two sequences of one length, filtered by conditions of which one implies the other,
      have equally many elements left only if the conditions agree everywhere. */
  lemma {:induction false} FilterLengths<S, T>(xs: seq<S>, ys: seq<T>, p: S -> bool, q: T -> bool)
    requires |xs| == |ys|
    requires forall i :: 0 <= i < |xs| && p(xs[i]) ==> q(ys[i])
    ensures |Filter(xs, p)| <= |Filter(ys, q)|
    ensures |Filter(xs, p)| == |Filter(ys, q)| ==> forall i :: 0 <= i < |xs| && q(ys[i]) ==> p(xs[i])
    decreases |xs|
  {
    if xs != [] {
      var n := |xs| - 1;
      FilterLengths(xs[..n], ys[..n], p, q);
      if |Filter(xs, p)| == |Filter(ys, q)| {
        forall i | 0 <= i < |xs| && q(ys[i]) ensures p(xs[i]) {
          assert i < n ==> xs[..n][i] == xs[i] && ys[..n][i] == ys[i];
        }
      }
    }
  }
}
