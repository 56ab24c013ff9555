/** Order-preserving filtering of sequences (a Python list comprehension with
    an `if` clause), with the facts about its first elements that the
    homepage choice relies on. */
module Sequences {

  /** The elements of `xs` that satisfy `keep`, in their original order. */
  function Filter<T>(xs: seq<T>, keep: T -> bool): (r: seq<T>)
    ensures |r| <= |xs|
    ensures forall k :: 0 <= k < |r| ==> r[k] in xs && keep(r[k])
    ensures forall k :: 0 <= k < |xs| && keep(xs[k]) ==> xs[k] in r
    decreases |xs|
  {
    if |xs| == 0 then []
    else
      assert xs == [xs[0]] + xs[1..];
      if keep(xs[0]) then [xs[0]] + Filter(xs[1..], keep)
      else Filter(xs[1..], keep)
  }

  /** `i` is the position of the first element of `xs` that satisfies `keep`. */
  ghost predicate FirstWhere<T>(xs: seq<T>, keep: T -> bool, i: int)
  {
    0 <= i < |xs| && keep(xs[i]) && forall j :: 0 <= j < i ==> !keep(xs[j])
  }

  /** Filtering distributes over concatenation, so the relative order of the
      kept elements is exactly their order in the input. */
  lemma {:induction false} FilterAppend<T>(xs: seq<T>, ys: seq<T>, keep: T -> bool)
    ensures Filter(xs + ys, keep) == Filter(xs, keep) + Filter(ys, keep)
    decreases |xs|
  {
    if |xs| == 0 {
      assert xs + ys == ys;
    } else {
      assert (xs + ys)[1..] == xs[1..] + ys;
      FilterAppend(xs[1..], ys, keep);
    }
  }

  /** Something survives the filter exactly when some element satisfies
      `keep`. */
  lemma {:induction false} FilterNonEmpty<T>(xs: seq<T>, keep: T -> bool)
    ensures |Filter(xs, keep)| > 0 <==> exists i :: 0 <= i < |xs| && keep(xs[i])
    decreases |xs|
  {
    if |xs| > 0 && !keep(xs[0]) {
      FilterNonEmpty(xs[1..], keep);
      assert forall i :: 0 < i < |xs| ==> xs[i] == xs[1..][i - 1];
    }
  }

  /** The first survivor of the filter is the first element that satisfies
      `keep`. */
  lemma {:induction false} FilterFirst<T>(xs: seq<T>, keep: T -> bool)
    requires |Filter(xs, keep)| > 0
    ensures exists i :: FirstWhere(xs, keep, i) && Filter(xs, keep)[0] == xs[i]
    decreases |xs|
  {
    if keep(xs[0]) {
      assert FirstWhere(xs, keep, 0);
    } else {
      FilterFirst(xs[1..], keep);
      var i :| FirstWhere(xs[1..], keep, i) && Filter(xs[1..], keep)[0] == xs[1..][i];
      assert FirstWhere(xs, keep, i + 1);
    }
  }

  /** More than one element survives the filter exactly when two distinct
      positions of the input satisfy `keep`. */
  lemma {:induction false} FilterMoreThanOne<T>(xs: seq<T>, keep: T -> bool)
    ensures |Filter(xs, keep)| > 1 <==>
              exists i, j :: 0 <= i < j < |xs| && keep(xs[i]) && keep(xs[j])
    decreases |xs|
  {
    if |xs| > 0 {
      var tail := xs[1..];
      FilterMoreThanOne(tail, keep);
      FilterNonEmpty(tail, keep);
      if |Filter(xs, keep)| > 1 {
        if keep(xs[0]) {
          var j :| 0 <= j < |tail| && keep(tail[j]);
          assert keep(xs[0]) && keep(xs[j + 1]);
        } else {
          var i, j :| 0 <= i < j < |tail| && keep(tail[i]) && keep(tail[j]);
          assert keep(xs[i + 1]) && keep(xs[j + 1]);
        }
      } else {
        forall i, j | 0 <= i < j < |xs|
          ensures !(keep(xs[i]) && keep(xs[j]))
        {
          assert xs[j] == tail[j - 1];
          if i > 0 {
            assert xs[i] == tail[i - 1];
          }
        }
      }
    }
  }
}
