/**
 * The list of available years on the trend page: the payload's years sorted
 * with the comparator `(a, b) => b - a`, i.e. from the latest to the earliest.
 */
module YearOrder {

  /** `xs` is in non-increasing order. */
  predicate Descending(xs: seq<int>) {
    forall i, j :: 0 <= i < j < |xs| ==> xs[i] >= xs[j]
  }

  /** `x` placed into the descending sequence `xs` in front of the first element not above it. */
  function InsertDescending(x: int, xs: seq<int>): (r: seq<int>)
    requires Descending(xs)
    ensures Descending(r)
    ensures multiset(r) == multiset(xs) + multiset{x}
    ensures |r| == |xs| + 1 && (r[0] == x || (xs != [] && r[0] == xs[0]))
  {
    if xs == [] || x >= xs[0] then [x] + xs
    else
      var rest := InsertDescending(x, xs[1..]);
      assert xs == [xs[0]] + xs[1..];
      assert rest[0] <= xs[0];
      [xs[0]] + rest
  }

  /** The years sorted from the latest to the earliest, duplicates kept. */
  function SortDescending(xs: seq<int>): (r: seq<int>)
    ensures Descending(r)
    ensures multiset(r) == multiset(xs)
    ensures |r| == |xs|
  {
    if xs == [] then []
    else
      assert xs == [xs[0]] + xs[1..];
      InsertDescending(xs[0], SortDescending(xs[1..]))
  }

  /**
   * The first of the sorted years is the latest year of the input: it occurs
   * in the input and no input year exceeds it.
   */
  lemma SortedHeadIsMax(xs: seq<int>)
    requires xs != []
    ensures |SortDescending(xs)| == |xs|
    ensures SortDescending(xs)[0] in xs
    ensures forall y :: y in xs ==> y <= SortDescending(xs)[0]
  {
    var r := SortDescending(xs);
    assert |multiset(r)| == |multiset(xs)|;
    assert r[0] in multiset(r);
    forall y | y in xs
      ensures y <= r[0]
    {
      assert y in multiset(r);
      var k :| 0 <= k < |r| && r[k] == y;
    }
  }

  /** Two descending permutations of each other start with the same element. */
  lemma SameHead(xs: seq<int>, ys: seq<int>)
    requires Descending(xs) && Descending(ys)
    requires multiset(xs) == multiset(ys)
    requires xs != []
    ensures ys != [] && xs[0] == ys[0]
  {
    assert xs[0] in multiset(ys);
    var i :| 0 <= i < |ys| && ys[i] == xs[0];
    assert ys[0] in multiset(xs);
    var j :| 0 <= j < |xs| && xs[j] == ys[0];
  }

  /**
   * A descending permutation is unique: any other sort with the same
   * comparator yields exactly `SortDescending(xs)`.
   */
  lemma {:induction false} DescendingPermutationUnique(xs: seq<int>, ys: seq<int>)
    requires Descending(xs) && Descending(ys)
    requires multiset(xs) == multiset(ys)
    ensures xs == ys
  {
    if xs == [] {
      assert |ys| == |multiset(ys)| == 0;
    } else {
      SameHead(xs, ys);
      assert xs == [xs[0]] + xs[1..];
      assert ys == [ys[0]] + ys[1..];
      assert multiset(xs) == multiset{xs[0]} + multiset(xs[1..]);
      assert multiset(ys) == multiset{ys[0]} + multiset(ys[1..]);
      assert multiset(xs[1..]) == multiset(xs) - multiset{xs[0]};
      assert multiset(ys[1..]) == multiset(ys) - multiset{ys[0]};
      DescendingPermutationUnique(xs[1..], ys[1..]);
    }
  }
}
