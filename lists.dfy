/**
 * `Array.prototype.filter` and the facts about it the utilities rely on.
 */
module Lists {
  /** The elements of `xs` that satisfy `p`, in their order in `xs`. */
  function Filter<T>(xs: seq<T>, p: T -> bool): (r: seq<T>)
    ensures |r| <= |xs|
    ensures forall k :: 0 <= k < |r| ==> p(r[k])
    decreases |xs|
  {
    if xs == [] then []
    else
      var last := xs[|xs| - 1];
      Filter(xs[..|xs| - 1], p) + (if p(last) then [last] else [])
  }

  /**
   * Filtering by a predicate and by its negation splits a list: the two
   * results hold every element once between them.
   */
  lemma {:induction false} FilterPartition<T>(xs: seq<T>, p: T -> bool, q: T -> bool)
    requires forall x :: q(x) == !p(x)
    ensures |Filter(xs, p)| + |Filter(xs, q)| == |xs|
    ensures multiset(Filter(xs, p)) + multiset(Filter(xs, q)) == multiset(xs)
    decreases |xs|
  {
    if xs != [] {
      var front := xs[..|xs| - 1];
      FilterPartition(front, p, q);
      assert xs == front + [xs[|xs| - 1]];
    }
  }

  /** An element is kept exactly when it is in the list and satisfies the predicate. */
  lemma {:induction false} FilterMembers<T>(xs: seq<T>, p: T -> bool, x: T)
    ensures x in Filter(xs, p) <==> x in xs && p(x)
    decreases |xs|
  {
    if xs != [] {
      var front := xs[..|xs| - 1];
      FilterMembers(front, p, x);
      assert xs == front + [xs[|xs| - 1]];
    }
  }

  /** Everything is kept when everything satisfies the predicate, nothing when nothing does. */
  lemma {:induction false} FilterExtremes<T>(xs: seq<T>, p: T -> bool)
    ensures (forall k :: 0 <= k < |xs| ==> p(xs[k])) ==> Filter(xs, p) == xs
    ensures (forall k :: 0 <= k < |xs| ==> !p(xs[k])) ==> Filter(xs, p) == []
    decreases |xs|
  {
    if xs != [] {
      var front := xs[..|xs| - 1];
      FilterExtremes(front, p);
      assert forall k :: 0 <= k < |front| ==> front[k] == xs[k];
      assert xs == front + [xs[|xs| - 1]];
    }
  }

  /** Concatenation regroups freely. */
  lemma Associative<T>(x: seq<T>, y: seq<T>, z: seq<T>)
    ensures x + y + z == x + (y + z)
  {
  }
}
