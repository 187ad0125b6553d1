/** `Array.prototype.filter` over a sequence, and the facts about it that the
    rendering relies on: it keeps exactly the matching elements, in order. */
module Seqs {

  /** `xs.filter(keep)`. */
  function Filter<T>(keep: T -> bool, xs: seq<T>): (r: seq<T>)
    ensures |r| <= |xs|
    ensures forall i :: 0 <= i < |r| ==> keep(r[i])
  {
    if xs == [] then []
    else (if keep(xs[0]) then [xs[0]] else []) + Filter(keep, xs[1..])
  }

  /** Filtering distributes over concatenation: it keeps the input's order. */
  lemma {:induction false} FilterAppend<T>(keep: T -> bool, a: seq<T>, b: seq<T>)
    ensures Filter(keep, a + b) == Filter(keep, a) + Filter(keep, b)
  {
    if a == [] {
      assert a + b == b;
    } else {
      assert (a + b)[0] == a[0];
      assert (a + b)[1..] == a[1..] + b;
      FilterAppend(keep, a[1..], b);
    }
  }

  /** An element survives the filter exactly when it is in the input and kept. */
  lemma {:induction false} FilterMembership<T>(keep: T -> bool, xs: seq<T>, x: T)
    ensures x in Filter(keep, xs) <==> x in xs && keep(x)
  {
    if xs != [] {
      FilterMembership(keep, xs[1..], x);
      assert xs == [xs[0]] + xs[1..];
    }
  }

  /** Nothing survives the filter exactly when no element is kept. */
  lemma FilterEmpty<T>(keep: T -> bool, xs: seq<T>)
    ensures Filter(keep, xs) == [] <==> forall i :: 0 <= i < |xs| ==> !keep(xs[i])
  {
    if Filter(keep, xs) != [] {
      FilterMembership(keep, xs, Filter(keep, xs)[0]);
    } else {
      forall i | 0 <= i < |xs| ensures !keep(xs[i]) {
        FilterMembership(keep, xs, xs[i]);
      }
    }
  }
}
