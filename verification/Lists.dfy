/** Lists without repetition. */
module Lists {

  predicate Distinct<T(==)>(xs: seq<T>) {
    forall i, j | 0 <= i < j < |xs| :: xs[i] != xs[j]
  }

  function AsSet<T>(xs: seq<T>): set<T> {
    set x | x in xs
  }

  lemma AsSetAppended<T>(xs: seq<T>, x: T)
    ensures AsSet(xs + [x]) == AsSet(xs) + {x}
  {
  }

  lemma {:induction false} DistinctSize<T>(xs: seq<T>)
    requires Distinct(xs)
    ensures |AsSet(xs)| == |xs|
  {
    if xs == [] {
      assert AsSet(xs) == {};
    } else {
      var (rest, last) := (xs[..|xs| - 1], xs[|xs| - 1]);
      DistinctSize(rest);
      AsSetAppended(rest, last);
      assert xs == rest + [last];
      assert last !in rest;
    }
  }

  lemma {:induction false} SubsetSize<T>(a: set<T>, b: set<T>)
    requires a <= b
    ensures |a| <= |b|
  {
    if x :| x in a {
      SubsetSize(a - {x}, b - {x});
    }
  }

  /** A list without repetition fits into a set that misses `x` with room to spare. */
  lemma DistinctFits<T>(xs: seq<T>, s: set<T>, x: T)
    requires Distinct(xs) && x in s && forall y | y in xs :: y in s && y != x
    ensures |xs| < |s|
  {
    DistinctSize(xs);
    SubsetSize(AsSet(xs), s - {x});
  }
}
