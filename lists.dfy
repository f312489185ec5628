/**
 * Order-preserving filtering, the shape of every comprehension with an `if`
 * and of every loop that appends the elements it keeps to a new list.
 */
module Lists {

  /** The elements of `xs` that `keep` accepts, in their original order. */
  function Filter<T>(xs: seq<T>, keep: T -> bool): (r: seq<T>)
    ensures |r| <= |xs|
    ensures forall i :: 0 <= i < |r| ==> r[i] in xs && keep(r[i])
    ensures forall i :: 0 <= i < |xs| && keep(xs[i]) ==> xs[i] in r
  {
    if |xs| == 0 then []
    else if keep(xs[0]) then [xs[0]] + Filter(xs[1..], keep)
    else Filter(xs[1..], keep)
  }

  /** Filtering a concatenation filters each part: the kept elements keep their order. */
  lemma {:induction false} FilterAppend<T>(a: seq<T>, b: seq<T>, keep: T -> bool)
    ensures Filter(a + b, keep) == Filter(a, keep) + Filter(b, keep)
  {
    if |a| == 0 {
      assert a + b == b;
    } else {
      assert (a + b)[0] == a[0];
      assert (a + b)[1..] == a[1..] + b;
      FilterAppend(a[1..], b, keep);
    }
  }

  /** A list whose every element is accepted is left as it is. */
  lemma {:induction false} FilterAll<T>(xs: seq<T>, keep: T -> bool)
    requires forall i :: 0 <= i < |xs| ==> keep(xs[i])
    ensures Filter(xs, keep) == xs
  {
    if |xs| > 0 {
      FilterAll(xs[1..], keep);
    }
  }

  /** Filtering twice is filtering once. */
  lemma FilterIdempotent<T>(xs: seq<T>, keep: T -> bool)
    ensures Filter(Filter(xs, keep), keep) == Filter(xs, keep)
  {
    var r := Filter(xs, keep);
    FilterAll(r, keep);
  }

  /** The result is empty exactly when no element is accepted. */
  lemma {:induction false} FilterEmpty<T>(xs: seq<T>, keep: T -> bool)
    ensures Filter(xs, keep) == [] <==> forall i :: 0 <= i < |xs| ==> !keep(xs[i])
  {
    if |xs| > 0 {
      FilterEmpty(xs[1..], keep);
      if !keep(xs[0]) {
        forall i | 0 <= i < |xs| && i > 0 ensures xs[i] == xs[1..][i - 1] { }
      }
    }
  }
}
